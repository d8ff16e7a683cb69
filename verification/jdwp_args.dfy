/**
 The options of the JDWP agent: a store of key=value entries that keeps the order in which keys were
 first given, read from and printed as a comma-separated list.
 */
module JdwpOptions {

  import opened Options

  // --- The store -----------------------------------------------------------------------------------------

  datatype Args = Args(keys: seq<string>, store: map<string, string>)

  const EMPTY: Args := Args([], map[])

  /** The keys are distinct and are those of the store. */
  ghost predicate Valid(a: Args) {
    && (forall i, j :: 0 <= i < j < |a.keys| ==> a.keys[i] != a.keys[j])
    && (forall k :: k in a.keys <==> k in a.store)
  }

  function With(a: Args, key: string, value: string): Args {
    Args(if key in a.store then a.keys else a.keys + [key], a.store[key := value])
  }

  lemma WithValid(a: Args, key: string, value: string)
    requires Valid(a)
    ensures Valid(With(a, key, value)) && a.keys <= With(a, key, value).keys
  {
  }

  // --- Reading -------------------------------------------------------------------------------------------

  predicate IsSpace(c: char) {
    c in " \t\n\r\U{000B}\U{000C}"
  }

  predicate NoSpace(s: string) {
    forall i :: 0 <= i < |s| ==> !IsSpace(s[i])
  }

  predicate Free(s: string, c: char) {
    forall i :: 0 <= i < |s| ==> s[i] != c
  }

  function Stripped(s: string): string {
    if s == "" then "" else (if IsSpace(s[0]) then "" else [s[0]]) + Stripped(s[1..])
  }

  lemma {:induction false} StrippedFree(s: string, c: char)
    ensures NoSpace(Stripped(s)) && (Free(s, c) ==> Free(Stripped(s), c))
  {
    if s != "" {
      StrippedFree(s[1..], c);
    }
  }

  lemma {:induction false} NothingToStrip(s: string)
    requires NoSpace(s)
    ensures Stripped(s) == s
  {
    if s != "" {
      NothingToStrip(s[1..]);
    }
  }

  /** Exactly the white space is left out, wherever it stands. */
  lemma {:induction false} StrippedConcat(s: string, t: string)
    ensures Stripped(s + t) == Stripped(s) + Stripped(t)
  {
    if s == "" {
      assert s + t == t;
    } else {
      StrippedConcat(s[1..], t);
      assert (s + t)[1..] == s[1..] + t;
    }
  }

  lemma StrippedOne(c: char)
    ensures Stripped([c]) == if c == ' ' || ('\t' <= c <= '\r') then "" else [c]
  {
    assert [c][1..] == "";
  }

  /** The first position of a character from `from` on, or the length. */
  function Find(s: string, c: char, from: nat): (i: nat)
    requires from <= |s|
    ensures from <= i <= |s| && (i < |s| ==> s[i] == c)
    decreases |s| - from
  {
    if from == |s| || s[from] == c then from else Find(s, c, from + 1)
  }

  lemma {:induction false} FindsFirst(s: string, c: char, from: nat, k: nat)
    requires from <= |s| && from <= k < Find(s, c, from)
    ensures s[k] != c
    decreases |s| - from
  {
    if from < k {
      FindsFirst(s, c, from + 1, k);
    }
  }

  lemma {:induction false} FindIs(s: string, c: char, from: nat, i: nat)
    requires from <= i <= |s| && (i < |s| ==> s[i] == c) && forall k :: from <= k < i ==> s[k] != c
    ensures Find(s, c, from) == i
    decreases |s| - from
  {
    if from < i {
      FindIs(s, c, from + 1, i);
    }
  }

  /** The pieces between commas; there is always at least one. */
  function Split(s: string): (r: seq<string>)
    ensures r != []
  {
    if s == "" then [""]
    else
      var c, r := s[|s| - 1], Split(s[..|s| - 1]);
      if c == ',' then r + [""] else Extended(r, [c])
  }

  /** With text added to the last piece. */
  function Extended(r: seq<string>, t: string): seq<string>
    requires r != []
  {
    r[..|r| - 1] + [r[|r| - 1] + t]
  }

  lemma ExtendedTwice(r: seq<string>, t: string, u: string)
    requires r != []
    ensures Extended(Extended(r, t), u) == Extended(r, t + u) && Extended(r, "") == r
  {
    assert r[|r| - 1] + (t + u) == r[|r| - 1] + t + u && r[|r| - 1] + "" == r[|r| - 1];
  }

  lemma {:induction false} PiecesHaveNoComma(s: string, k: nat)
    requires k < |Split(s)|
    ensures Free(Split(s)[k], ',')
  {
    if s != "" {
      var r := Split(s[..|s| - 1]);
      if k < |r| {
        PiecesHaveNoComma(s[..|s| - 1], k);
      }
    }
  }

  /** Text without a comma lengthens the last piece. */
  lemma {:induction false} SplitMore(s: string, t: string)
    requires Free(t, ',')
    ensures Split(s + t) == Extended(Split(s), t)
    decreases |t|
  {
    if t == "" {
      assert s + t == s;
      ExtendedTwice(Split(s), "", "");
    } else {
      var before, c := t[..|t| - 1], t[|t| - 1];
      SplitMore(s, before);
      assert (s + t)[..|s + t| - 1] == s + before && before + [c] == t;
      ExtendedTwice(Split(s), before, [c]);
    }
  }

  /** A comma begins a new piece. */
  lemma SplitComma(s: string)
    ensures Split(s + ",") == Split(s) + [""]
  {
  }

  /** What a piece gives: a key and a value, or nothing. */
  type Item = Option<(string, string)>

  /** A piece without '=', or with one at either end, is skipped. */
  function Entry(piece: string): Item {
    var w := Stripped(piece);
    var i := Find(w, '=', 0);
    if i == |w| || w[|w| - 1] == '=' || w[0] == '=' then None else Some((w[..i], w[i + 1..]))
  }

  function Entries(pieces: seq<string>): (r: seq<Item>)
    ensures |r| == |pieces|
  {
    seq(|pieces|, i requires 0 <= i < |pieces| => Entry(pieces[i]))
  }

  function WithItem(a: Args, item: Item): Args {
    if item.Some? then With(a, item.value.0, item.value.1) else a
  }

  function WithAll(items: seq<Item>): Args {
    if items == [] then EMPTY else WithItem(WithAll(items[..|items| - 1]), items[|items| - 1])
  }

  lemma OneMoreItem(items: seq<Item>, item: Item)
    ensures WithAll(items + [item]) == WithItem(WithAll(items), item)
  {
  }

  function Parse(opts: string): Args {
    WithAll(Entries(Split(opts)))
  }

  // --- What is read ----------------------------------------------------------------------------------------

  predicate Names(item: Item, key: string) {
    item.Some? && item.value.0 == key
  }

  ghost predicate FirstAt(items: seq<Item>, key: string, i: nat) {
    i < |items| && Names(items[i], key) && forall j :: 0 <= j < i ==> !Names(items[j], key)
  }

  ghost predicate LastAt(items: seq<Item>, key: string, i: nat) {
    i < |items| && Names(items[i], key) && forall j :: i < j < |items| ==> !Names(items[j], key)
  }

  lemma {:induction false} WithAllValid(items: seq<Item>)
    ensures Valid(WithAll(items))
  {
    if items != [] {
      var before, last := items[..|items| - 1], items[|items| - 1];
      WithAllValid(before);
      if last.Some? {
        WithValid(WithAll(before), last.value.0, last.value.1);
      }
    }
  }

  /** A key is there exactly when an entry names it, and the last such entry gives its value. */
  lemma {:induction false} LastValueWins(items: seq<Item>, key: string)
    ensures key in WithAll(items).store <==> exists i: nat :: LastAt(items, key, i)
    ensures forall i: nat :: LastAt(items, key, i) ==> WithAll(items).store[key] == items[i].value.1
  {
    if items != [] {
      var n := |items| - 1;
      var before := items[..n];
      LastValueWins(before, key);
      if Names(items[n], key) {
        assert LastAt(items, key, n);
      } else {
        forall i: nat
          ensures LastAt(items, key, i) <==> LastAt(before, key, i)
        {
        }
      }
    }
  }

  /** Keys stand in the order of the first entries that name them. */
  lemma {:induction false} FirstEntryOrders(items: seq<Item>, p: nat, q: nat)
    requires p < q < |WithAll(items).keys|
    ensures exists i: nat, j: nat ::
              i < j && FirstAt(items, WithAll(items).keys[p], i) && FirstAt(items, WithAll(items).keys[q], j)
  {
    var n := |items| - 1;
    var before, keys := items[..n], WithAll(items).keys;
    if q < |WithAll(before).keys| {
      FirstEntryOrders(before, p, q);
      assert WithAll(before).keys[p] == keys[p] && WithAll(before).keys[q] == keys[q];
      var i: nat, j: nat :| i < j && FirstAt(before, keys[p], i) && FirstAt(before, keys[q], j);
      assert FirstAt(items, keys[p], i) && FirstAt(items, keys[q], j);
    } else {
      var i := FirstOf(before, keys[p]);
      assert FirstAt(items, keys[p], i);
      NotNamed(before, keys[q]);
      assert FirstAt(items, keys[q], n);
    }
  }

  lemma {:induction false} FirstOf(items: seq<Item>, key: string) returns (i: nat)
    requires key in WithAll(items).keys
    ensures FirstAt(items, key, i)
  {
    var n := |items| - 1;
    var before := items[..n];
    if key in WithAll(before).keys {
      i := FirstOf(before, key);
    } else {
      i := n;
      WithAllValid(before);
      NotNamed(before, key);
    }
  }

  lemma {:induction false} NotNamed(items: seq<Item>, key: string)
    requires key !in WithAll(items).store
    ensures forall j :: 0 <= j < |items| ==> !Names(items[j], key)
  {
    if items != [] {
      NotNamed(items[..|items| - 1], key);
    }
  }

  // --- Printing --------------------------------------------------------------------------------------------

  ghost function Printed(a: Args, n: nat): (r: seq<string>)
    requires n <= |a.keys| && Valid(a)
    ensures |r| == n
  {
    if n == 0 then [] else Printed(a, n - 1) + [a.keys[n - 1] + "=" + a.store[a.keys[n - 1]]]
  }

  /** Each piece followed by a comma. */
  function Terminated(pieces: seq<string>): string {
    if pieces == [] then "" else Terminated(pieces[..|pieces| - 1]) + pieces[|pieces| - 1] + ","
  }

  function WithoutLast(s: string): string {
    if |s| >= 2 then s[..|s| - 1] else s
  }

  ghost function Joined(a: Args): string
    requires Valid(a)
  {
    WithoutLast(Terminated(Printed(a, |a.keys|)))
  }

  // --- Round trip ------------------------------------------------------------------------------------------

  predicate CleanEntry(key: string, value: string) {
    && key != "" && NoSpace(key) && Free(key, ',') && Free(key, '=')
    && value != "" && NoSpace(value) && Free(value, ',') && value[|value| - 1] != '='
  }

  ghost predicate Clean(a: Args) {
    Valid(a) && forall k :: k in a.store ==> CleanEntry(k, a.store[k])
  }

  lemma EntryIsClean(piece: string)
    requires Free(piece, ',') && Entry(piece).Some?
    ensures CleanEntry(Entry(piece).value.0, Entry(piece).value.1)
  {
    var w := Stripped(piece);
    StrippedFree(piece, ',');
    var i := Find(w, '=', 0);
    forall k | 0 <= k < i
      ensures w[k] != '='
    {
      FindsFirst(w, '=', 0, k);
    }
    assert w[|w| - 1] == w[i + 1..][|w| - i - 2];
  }

  lemma EntryOfPrinted(key: string, value: string)
    requires CleanEntry(key, value)
    ensures Entry(key + "=" + value) == Some((key, value))
  {
    var w := key + "=" + value;
    assert w[..|key|] == key && w[|key| + 1..] == value && w[|w| - 1] == value[|value| - 1];
    NothingToStrip(w);
    FindIs(w, '=', 0, |key|);
  }

  lemma {:induction false} WithAllClean(items: seq<Item>)
    requires forall item :: item in items && item.Some? ==> CleanEntry(item.value.0, item.value.1)
    ensures Clean(WithAll(items))
  {
    WithAllValid(items);
    if items != [] {
      WithAllClean(items[..|items| - 1]);
      assert items[|items| - 1] in items;
    }
  }

  lemma ParsedIsClean(opts: string)
    ensures Clean(Parse(opts))
  {
    var pieces := Split(opts);
    forall item | item in Entries(pieces) && item.Some?
      ensures CleanEntry(item.value.0, item.value.1)
    {
      var i :| 0 <= i < |pieces| && item == Entry(pieces[i]);
      PiecesHaveNoComma(opts, i);
      EntryIsClean(pieces[i]);
    }
    WithAllClean(Entries(pieces));
  }

  /** Text without a comma fills an empty last piece. */
  lemma SplitPiece(s: string, pieces: seq<string>, piece: string)
    requires Split(s) == pieces + [""] && Free(piece, ',')
    ensures Split(s + piece) == pieces + [piece]
  {
    SplitMore(s, piece);
    assert (pieces + [""])[..|pieces|] == pieces && "" + piece == piece;
  }

  lemma SplitOne(piece: string)
    requires Free(piece, ',')
    ensures Split(piece) == [piece]
  {
    SplitPiece("", [], piece);
    assert "" + piece == piece;
  }

  lemma SplitNext(s: string, pieces: seq<string>, piece: string)
    requires Split(s) == pieces && Free(piece, ',')
    ensures Split(s + "," + piece) == pieces + [piece]
  {
    SplitComma(s);
    SplitPiece(s + ",", pieces, piece);
  }

  ghost predicate NoCommas(pieces: seq<string>) {
    forall i :: 0 <= i < |pieces| ==> Free(pieces[i], ',')
  }

  /** The pieces with a comma between any two. */
  function Separated(pieces: seq<string>): string
    requires pieces != []
  {
    if |pieces| == 1 then pieces[0]
    else Separated(pieces[..|pieces| - 1]) + "," + pieces[|pieces| - 1]
  }

  lemma {:induction false} TerminatedIsSeparated(pieces: seq<string>)
    requires pieces != []
    ensures Terminated(pieces) == Separated(pieces) + ","
  {
    if |pieces| > 1 {
      TerminatedIsSeparated(pieces[..|pieces| - 1]);
    }
  }

  lemma {:induction false} SplitSeparated(pieces: seq<string>)
    requires pieces != [] && NoCommas(pieces)
    ensures Split(Separated(pieces)) == pieces
  {
    var before, last := pieces[..|pieces| - 1], pieces[|pieces| - 1];
    assert pieces == before + [last];
    if before == [] {
      SplitOne(last);
    } else {
      SplitSeparated(before);
      SplitNext(Separated(before), before, last);
    }
  }

  /** Options are printed as key=value, in the order of the keys, with commas between them. */
  lemma JoinedIsSeparated(a: Args)
    requires Valid(a)
    ensures a.keys == [] ==> Joined(a) == ""
    ensures a.keys != [] ==> Joined(a) == Separated(Printed(a, |a.keys|))
  {
    if a.keys != [] {
      TerminatedIsSeparated(Printed(a, |a.keys|));
      PrintedAt(a, |a.keys|, |a.keys| - 1);
      LastPieceLong(Printed(a, |a.keys|));
    }
  }

  lemma {:induction false} PrintedAt(a: Args, n: nat, i: nat)
    requires Valid(a) && i < n <= |a.keys|
    ensures Printed(a, n)[i] == a.keys[i] + "=" + a.store[a.keys[i]]
  {
    if i < n - 1 {
      PrintedAt(a, n - 1, i);
    }
  }

  lemma LastPieceLong(pieces: seq<string>)
    requires pieces != [] && pieces[|pieces| - 1] != ""
    ensures |Separated(pieces)| >= 1
  {
  }

  lemma SplitJoined(pieces: seq<string>)
    requires pieces != [] && NoCommas(pieces) && pieces[|pieces| - 1] != ""
    ensures Split(WithoutLast(Terminated(pieces))) == pieces
  {
    TerminatedIsSeparated(pieces);
    SplitSeparated(pieces);
  }

  /** The entries of the first `n` keys. */
  ghost function ItemsOf(a: Args, n: nat): (r: seq<Item>)
    requires n <= |a.keys| && Valid(a)
    ensures |r| == n
  {
    if n == 0 then [] else ItemsOf(a, n - 1) + [Some((a.keys[n - 1], a.store[a.keys[n - 1]]))]
  }

  /** The first `n` keys with their values. */
  ghost function FirstArgs(a: Args, n: nat): Args
    requires Valid(a) && n <= |a.keys|
  {
    Args(a.keys[..n], map k | k in a.keys[..n] :: a.store[k])
  }

  lemma OneMoreKey(a: Args, n: nat)
    requires Valid(a) && n < |a.keys|
    ensures FirstArgs(a, n + 1) == With(FirstArgs(a, n), a.keys[n], a.store[a.keys[n]])
  {
    assert a.keys[..n + 1] == a.keys[..n] + [a.keys[n]];
    assert a.keys[n] !in a.keys[..n];
  }

  lemma {:induction false} WithAllItems(a: Args, n: nat)
    requires Valid(a) && n <= |a.keys|
    ensures WithAll(ItemsOf(a, n)) == FirstArgs(a, n)
  {
    if n > 0 {
      WithAllItems(a, n - 1);
      OneMoreKey(a, n - 1);
      OneMoreItem(ItemsOf(a, n - 1), Some((a.keys[n - 1], a.store[a.keys[n - 1]])));
    }
  }

  lemma {:induction false} EntryOfKey(a: Args, n: nat, i: nat)
    requires Clean(a) && i < n <= |a.keys|
    ensures Entry(Printed(a, n)[i]) == ItemsOf(a, n)[i]
    ensures Free(Printed(a, n)[i], ',') && Printed(a, n)[i] != ""
  {
    if i == n - 1 {
      var key, value := a.keys[i], a.store[a.keys[i]];
      assert CleanEntry(key, value);
      EntryOfPrinted(key, value);
    } else {
      EntryOfKey(a, n - 1, i);
    }
  }

  lemma EntriesOfPrinted(a: Args, n: nat)
    requires Clean(a) && n <= |a.keys|
    ensures Entries(Printed(a, n)) == ItemsOf(a, n)
    ensures NoCommas(Printed(a, n)) && (n > 0 ==> Printed(a, n)[n - 1] != "")
  {
    forall i | 0 <= i < n
      ensures Entry(Printed(a, n)[i]) == ItemsOf(a, n)[i]
      ensures Free(Printed(a, n)[i], ',') && Printed(a, n)[i] != ""
    {
      EntryOfKey(a, n, i);
    }
  }

  lemma AllArgs(a: Args)
    requires Valid(a)
    ensures FirstArgs(a, |a.keys|) == a
  {
  }

  /** Nothing is printed as the empty text, and that is read as nothing. */
  lemma NothingIsRead()
    ensures Parse("") == EMPTY
  {
  }

  lemma PrintedIsRead(a: Args)
    requires Clean(a)
    ensures Parse(Joined(a)) == a
  {
    AllArgs(a);
    if a.keys == [] {
      NothingIsRead();
    } else {
      EntriesOfPrinted(a, |a.keys|);
      WithAllItems(a, |a.keys|);
      SplitJoined(Printed(a, |a.keys|));
    }
  }

  /** Printed options are read back the same exactly when they could have been read in the first place. */
  lemma RoundTripIff(a: Args)
    requires Valid(a)
    ensures Parse(Joined(a)) == a <==> Clean(a)
  {
    if Clean(a) {
      PrintedIsRead(a);
    } else {
      ParsedIsClean(Joined(a));
    }
  }

  /** In particular for every option string. */
  lemma ParsedRoundTrip(opts: string)
    ensures Valid(Parse(opts)) && Parse(Joined(Parse(opts))) == Parse(opts)
  {
    ParsedIsClean(opts);
    PrintedIsRead(Parse(opts));
  }

  // --- The agent's options ---------------------------------------------------------------------------------

  function LogfileFixed(a: Args, package: string): Args {
    if "logfile" !in a.store then a
    else if a.store["logfile"] == "" || a.store["logfile"][0] == '/' || package == "" then a
    else With(a, "logfile", "/data/data/" + package + "/" + a.store["logfile"])
  }

  function FixedArgs(user: Args, ddmActive: bool, address: string): Args {
    var a := With(user, "server", "y");
    var b := With(a, "suspend", "n");
    var c := With(b, "ddm_already_active", if ddmActive then "y" else "n");
    var d := With(c, "transport", "dt_fd_forward");
    With(d, "address", address)
  }

  function AgentArgs(user: Args, ddmActive: bool, address: string, package: string): Args {
    LogfileFixed(FixedArgs(user, ddmActive, address), package)
  }

  /** The keys that the agent is always given. */
  predicate IsFixed(key: string) {
    key == "server" || key == "suspend" || key == "ddm_already_active" || key == "transport" || key == "address"
  }

  /**
   What the agent is told: it listens and does not suspend, whether a DDM client is active, and how
   to get its connection, whatever the user says about these. Everything else is the user's, except
   that a relative log file is in the directory of the package.
   */
  lemma AgentArgsValues(user: Args, ddmActive: bool, address: string, package: string, key: string)
    ensures var a := AgentArgs(user, ddmActive, address, package);
            && a.store.Keys == user.store.Keys + {"server", "suspend", "ddm_already_active", "transport", "address"}
            && a.store["server"] == "y" && a.store["suspend"] == "n"
            && a.store["ddm_already_active"] == (if ddmActive then "y" else "n")
            && a.store["transport"] == "dt_fd_forward" && a.store["address"] == address
            && (key in user.store && !IsFixed(key) ==>
                  var v := user.store[key];
                  a.store[key] == if key == "logfile" && v != "" && v[0] != '/' && package != ""
                                  then "/data/data/" + package + "/" + v else v)
  {
    var e := FixedArgs(user, ddmActive, address);
    assert e.store.Keys == user.store.Keys + {"server", "suspend", "ddm_already_active", "transport", "address"};
    FixedValues(user, ddmActive, address, key);
    hide FixedArgs, With;
    if key in user.store {
      LogfileValues(e, package, key);
    }
    LogfileValues(e, package, "server");
    LogfileValues(e, package, "suspend");
    LogfileValues(e, package, "ddm_already_active");
    LogfileValues(e, package, "transport");
    LogfileValues(e, package, "address");
  }

  lemma FixedValues(user: Args, ddmActive: bool, address: string, key: string)
    ensures var s := FixedArgs(user, ddmActive, address).store;
            && s["server"] == "y" && s["suspend"] == "n" && s["ddm_already_active"] == (if ddmActive then "y" else "n")
            && s["transport"] == "dt_fd_forward" && s["address"] == address
            && (key in user.store && !IsFixed(key) ==> s[key] == user.store[key])
  {
  }

  lemma LogfileValues(a: Args, package: string, key: string)
    requires key in a.store
    ensures LogfileFixed(a, package).store.Keys == a.store.Keys
    ensures var v := a.store[key];
            LogfileFixed(a, package).store[key] ==
            if key == "logfile" && v != "" && v[0] != '/' && package != "" then "/data/data/" + package + "/" + v else v
  {
  }

  /** Those of the keys that are not there yet. */
  function Missing(keys: seq<string>, wanted: seq<string>): seq<string> {
    if wanted == [] then []
    else Missing(keys, wanted[..|wanted| - 1])
         + if wanted[|wanted| - 1] in keys then [] else [wanted[|wanted| - 1]]
  }

  /** The user's keys come first, in their order, and then those that were missing, in this order. */
  lemma AgentArgsKeys(user: Args, ddmActive: bool, address: string, package: string)
    requires Valid(user)
    ensures AgentArgs(user, ddmActive, address, package).keys ==
            user.keys + Missing(user.keys, ["server", "suspend", "ddm_already_active", "transport", "address"])
  {
    hide With, Missing, Valid, LogfileFixed;
    var value := if ddmActive then "y" else "n";
    var wanted := ["server", "suspend", "ddm_already_active", "transport", "address"];
    var a := With(user, "server", "y");
    var b := With(a, "suspend", "n");
    var c := With(b, "ddm_already_active", value);
    var d := With(c, "transport", "dt_fd_forward");
    var e := With(d, "address", address);
    NothingMissing(user.keys, wanted);
    OneMoreWanted(user, user, wanted, 0, "y");
    OneMoreWanted(user, a, wanted, 1, "n");
    OneMoreWanted(user, b, wanted, 2, value);
    OneMoreWanted(user, c, wanted, 3, "dt_fd_forward");
    OneMoreWanted(user, d, wanted, 4, address);
    assert wanted[..5] == wanted;
    LogfileKeys(e, package);
  }

  lemma LogfileKeys(a: Args, package: string)
    ensures LogfileFixed(a, package).keys == a.keys
  {
  }

  lemma NothingMissing(keys: seq<string>, wanted: seq<string>)
    ensures keys + Missing(keys, wanted[..0]) == keys
  {
  }

  lemma OneMoreWanted(user: Args, a: Args, wanted: seq<string>, i: nat, value: string)
    requires Valid(user) && Valid(a) && i < |wanted| && a.keys == user.keys + Missing(user.keys, wanted[..i])
    requires forall j :: 0 <= j < i ==> wanted[j] != wanted[i]
    ensures Valid(With(a, wanted[i], value))
    ensures With(a, wanted[i], value).keys == user.keys + Missing(user.keys, wanted[..i + 1])
  {
    WithValid(a, wanted[i], value);
    assert wanted[..i + 1][..i] == wanted[..i];
    NotMissing(user.keys, wanted[..i], wanted[i]);
  }

  lemma {:induction false} NotMissing(keys: seq<string>, wanted: seq<string>, key: string)
    requires forall j :: 0 <= j < |wanted| ==> wanted[j] != key
    ensures key !in Missing(keys, wanted)
  {
    if wanted != [] {
      NotMissing(keys, wanted[..|wanted| - 1], key);
    }
  }

  ghost predicate Before(keys: seq<string>, x: string, y: string) {
    exists i, j :: 0 <= i < j < |keys| && keys[i] == x && keys[j] == y
  }

  lemma BeforeInLonger(keys: seq<string>, more: seq<string>, x: string, y: string)
    requires x in keys && y in keys && keys <= more
    requires forall i, j :: 0 <= i < j < |more| ==> more[i] != more[j]
    ensures Before(keys, x, y) <==> Before(more, x, y)
  {
  }

  lemma WithOrder(a: Args, key: string, value: string, x: string, y: string)
    requires Valid(a) && x in a.keys && y in a.keys
    ensures Before(a.keys, x, y) <==> Before(With(a, key, value).keys, x, y)
  {
    WithValid(a, key, value);
    BeforeInLonger(a.keys, With(a, key, value).keys, x, y);
  }

  /** Adding transport and then address leaves them in that order unless address was there without it or before it. */
  lemma WithTransportAndAddress(a: Args, transport: string, address: string)
    requires Valid(a)
    ensures var b := With(With(a, "transport", transport), "address", address);
            && Valid(b) && "transport" in b.keys && "address" in b.keys
            && (Before(b.keys, "transport", "address") <==>
                "address" !in a.keys || Before(a.keys, "transport", "address"))
  {
    var m := With(a, "transport", transport);
    var b := With(m, "address", address);
    WithValid(a, "transport", transport);
    WithValid(m, "address", address);
    if "address" in a.keys && "transport" !in a.keys {
      var i :| 0 <= i < |a.keys| && a.keys[i] == "address";
      assert b.keys[i] == "address" && b.keys[|a.keys|] == "transport";
    } else if "address" in a.keys {
      WithOrder(a, "transport", transport, "transport", "address");
      WithOrder(m, "address", address, "transport", "address");
    } else {
      var i :| 0 <= i < |m.keys| && m.keys[i] == "transport";
      assert b.keys[i] == "transport" && b.keys[|m.keys|] == "address";
    }
  }

  /** Keys other than the two do not matter to their order. */
  lemma WithOther(a: Args, key: string, value: string)
    requires Valid(a) && key != "transport" && key != "address"
    ensures SameOrder(a, With(a, key, value))
  {
  }

  ghost predicate SameOrder(a: Args, b: Args) {
    && Valid(b)
    && ("address" in a.keys <==> "address" in b.keys)
    && (Before(a.keys, "transport", "address") <==> Before(b.keys, "transport", "address"))
  }

  lemma FixedArgsOrder(user: Args, value: string)
    requires Valid(user)
    ensures SameOrder(user, With(With(With(user, "server", "y"), "suspend", "n"), "ddm_already_active", value))
  {
    WithOther(user, "server", "y");
    WithOther(With(user, "server", "y"), "suspend", "n");
    WithOther(With(With(user, "server", "y"), "suspend", "n"), "ddm_already_active", value);
  }

  lemma LogfileOrder(a: Args, package: string)
    requires Valid(a)
    ensures SameOrder(a, LogfileFixed(a, package))
  {
  }

  lemma AgentArgsOrder(user: Args, ddmActive: bool, address: string, package: string)
    requires Valid(user)
    ensures var r := AgentArgs(user, ddmActive, address, package);
            && Valid(r)
            && (Before(r.keys, "transport", "address") <==>
                "address" !in user.keys || Before(user.keys, "transport", "address"))
  {
    var value := if ddmActive then "y" else "n";
    var c := With(With(With(user, "server", "y"), "suspend", "n"), "ddm_already_active", value);
    FixedArgsOrder(user, value);
    WithTransportAndAddress(c, "dt_fd_forward", address);
    var e := With(With(c, "transport", "dt_fd_forward"), "address", address);
    LogfileOrder(e, package);
  }

  /**
   The agent needs transport to precede address: this holds exactly when the user's options do not
   name address alone or first.
   */
  lemma TransportBeforeAddressIff(opts: string, ddmActive: bool, address: string, package: string)
    ensures var user, r := Parse(opts), AgentArgs(Parse(opts), ddmActive, address, package);
            && Valid(r)
            && (Before(r.keys, "transport", "address") <==>
                "address" !in user.keys || Before(user.keys, "transport", "address"))
  {
    WithAllValid(Entries(Split(opts)));
    AgentArgsOrder(Parse(opts), ddmActive, address, package);
  }

  lemma OneOption(key: string, value: string)
    requires CleanEntry(key, value)
    ensures Parse(key + "=" + value) == With(EMPTY, key, value)
  {
    var piece := key + "=" + value;
    EntryOfPrinted(key, value);
    SplitOne(piece);
    assert Entries([piece]) == [] + [Some((key, value))];
    OneMoreItem([], Some((key, value)));
  }

  /** A user who names an address alone gets it before the transport. */
  lemma UserAddressComesFirst(ddmActive: bool, address: string, package: string)
    ensures !Before(AgentArgs(Parse("address=1"), ddmActive, address, package).keys, "transport", "address")
  {
    OneOption("address", "1");
    assert "address" + "=" + "1" == "address=1";
    TransportBeforeAddressIff("address=1", ddmActive, address, package);
  }

  // --- The objects -----------------------------------------------------------------------------------------

  lemma NextPiece(opts: string, pos: nat, end: nat, done: seq<string>)
    requires pos <= |opts| && end == Find(opts, ',', pos) && Split(opts[..pos]) == done + [""]
    ensures Split(opts[..end]) == done + [opts[pos..end]]
  {
    PieceIsFree(opts, pos, end);
    SliceEnds(opts, pos, end);
    SplitPiece(opts[..pos], done, opts[pos..end]);
  }

  lemma SliceEnds(s: string, pos: nat, end: nat)
    requires pos <= end <= |s|
    ensures s[..pos] + s[pos..end] == s[..end]
  {
  }

  lemma NextComma(opts: string, end: nat)
    requires end < |opts| && opts[end] == ','
    ensures Split(opts[..end + 1]) == Split(opts[..end]) + [""]
  {
    assert opts[..end + 1][..end] == opts[..end];
  }

  lemma PieceIsFree(s: string, pos: nat, end: nat)
    requires pos <= |s| && end == Find(s, ',', pos)
    ensures Free(s[pos..end], ',')
  {
    forall k | pos <= k < end
      ensures s[k] != ','
    {
      FindsFirst(s, ',', pos, k);
    }
  }

  lemma OneMorePiece(done: seq<string>, piece: string)
    ensures WithAll(Entries(done + [piece])) == WithItem(WithAll(Entries(done)), Entry(piece))
  {
    assert Entries(done + [piece]) == Entries(done) + [Entry(piece)];
    OneMoreItem(Entries(done), Entry(piece));
  }

  class JdwpArgs {
    var keys: seq<string>
    var store: map<string, string>

    ghost function View(): Args
      reads this
    {
      Args(keys, store)
    }

    constructor (opts: string)
      ensures View() == Parse(opts) && Valid(View())
    {
      keys, store := [], map[];
      new;
      var pos, eof := 0, false;
      ghost var done: seq<string> := [];
      while !eof
        invariant pos <= |opts|
        invariant View() == WithAll(Entries(done))
        invariant if eof then Split(opts) == done else Split(opts[..pos]) == done + [""]
        decreases |opts| - pos, !eof
      {
        var end := Find(opts, ',', pos);
        NextPiece(opts, pos, end, done);
        if end < |opts| {
          NextComma(opts, end);
        } else {
          assert opts[..end] == opts;
        }
        OneMorePiece(done, opts[pos..end]);
        done := done + [opts[pos..end]];
        PutPiece(opts[pos..end]);
        eof := end == |opts|;
        pos := if eof then end else end + 1;
      }
      WithAllValid(Entries(Split(opts)));
    }

    /** Stores a piece of the form key=value. */
    method PutPiece(piece: string)
      modifies this
      ensures View() == WithItem(old(View()), Entry(piece))
    {
      var w := Stripped(piece);
      var i := Find(w, '=', 0);
      if i == |w| || w[|w| - 1] == '=' || w[0] == '=' {
        return;
      }
      Put(w[..i], w[i + 1..]);
    }

    method Put(key: string, value: string)
      modifies this
      ensures View() == With(old(View()), key, value)
    {
      if key !in store {
        keys := keys + [key];
      }
      store := store[key := value];
    }

    method Join() returns (opts: string)
      requires Valid(View())
      ensures opts == Joined(View())
    {
      opts := "";
      for i := 0 to |keys|
        invariant opts == Terminated(Printed(View(), i))
      {
        assert Printed(View(), i + 1)[..|Printed(View(), i)|] == Printed(View(), i);
        opts := opts + keys[i] + "=" + store[keys[i]] + ",";
      }
      if |opts| >= 2 {
        opts := opts[..|opts| - 1];
      }
    }
  }

  method MakeAgentArg(agent: string, opts: string, ddmActive: bool, address: string, package: string)
    returns (arg: string)
    ensures Valid(AgentArgs(Parse(opts), ddmActive, address, package))
    ensures arg == agent + "=" + Joined(AgentArgs(Parse(opts), ddmActive, address, package))
  {
    var parameters := new JdwpArgs(opts);
    parameters.Put("server", "y");
    parameters.Put("suspend", "n");
    parameters.Put("ddm_already_active", if ddmActive then "y" else "n");
    parameters.Put("transport", "dt_fd_forward");
    parameters.Put("address", address);
    if "logfile" in parameters.store {
      var logfile := parameters.store["logfile"];
      if logfile != "" && logfile[0] != '/' && package != "" {
        parameters.Put("logfile", "/data/data/" + package + "/" + logfile);
      }
    }
    TransportBeforeAddressIff(opts, ddmActive, address, package);
    var joined := parameters.Join();
    arg := agent + "=" + joined;
  }
}
