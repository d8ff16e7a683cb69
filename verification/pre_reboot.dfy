/**
 The preparation of a Pre-reboot Dexopt run. It must happen once: what it leaves behind in a
 temporary directory decides what a later call may still do.
 */
module PreReboot {

  datatype Entry = ClasspathFile | ArtApexDataDir | OdrefreshDir | PreparationDone

  /** The temporary directory, and everything the preparation does outside it. */
  datatype Device = Device(
    tmp: set<Entry>, classpathDerived: bool, mounts: multiset<Entry>, bootImagesBuilt: bool, metadataSaved: bool)

  const CLEAN: Device := Device({}, false, multiset{}, false, false)

  /** Ready; cancelled by the client; failed, but retrying is not forbidden as such; refused. */
  datatype Status = Ready | Cancelled | NonFatal | Fatal

  predicate Prepared(d: Device) {
    PreparationDone in d.tmp
  }

  predicate Complete(d: Device) {
    d.classpathDerived && d.mounts == multiset{ArtApexDataDir, OdrefreshDir} && d.bootImagesBuilt && d.metadataSaved
  }

  /** Nothing is mounted twice, an empty directory means nothing was done, and the marker that all was. */
  predicate Good(d: Device) {
    && d.mounts <= multiset{ArtApexDataDir, OdrefreshDir}
    && (d.tmp == {} ==> d == CLEAN)
    && (Prepared(d) ==> Complete(d))
  }

  /**
   How one call may change the device and what it may answer: it only ever starts on an empty
   directory, leaves finished preparation as it is, and refuses preparation that was only begun.
   */
  predicate Called(d: Device, d': Device, status: Status) {
    && Good(d')
    && (d.tmp != {} ==> d' == d)
    && (d.tmp != {} && !Prepared(d) ==> status == Fatal || status == NonFatal)
    && (Prepared(d) ==> status == Ready || status == NonFatal)
    && (status == Ready ==> Prepared(d'))
    && (status == Cancelled ==> d'.tmp != {} && !Prepared(d'))
  }

  class Artd {
    var device: Device
    /** Which steps the system does not let happen. */
    const denies: nat -> bool
    var steps: nat

    constructor ()
      ensures device == CLEAN && Good(device)
    {
      device := CLEAN;
    }

    ghost predicate Cooperative() {
      forall n: nat :: !denies(n)
    }

    method Works() returns (ok: bool)
      modifies this`steps
      ensures ok == !denies(old(steps))
    {
      ok := !denies(steps);
      steps := steps + 1;
    }

    /** Creates the file, then fills it. */
    method DeriveClasspath() returns (ok: bool)
      modifies this
      ensures device == old(device)
              || device == old(device).(tmp := old(device).tmp + {ClasspathFile})
              || device == old(device).(tmp := old(device).tmp + {ClasspathFile}, classpathDerived := true)
      ensures ok ==> ClasspathFile in device.tmp && device.classpathDerived
      ensures Cooperative() ==> ok
    {
      ok := Works();
      if !ok {
        return;
      }
      device := device.(tmp := device.tmp + {ClasspathFile});
      ok := Works();
      if ok {
        device := device.(classpathDerived := true);
      }
    }

    /** Creates the directory, mounts it, and labels what is mounted. */
    method BindMountNewDir(dir: Entry) returns (ok: bool)
      modifies this
      ensures device == old(device)
              || device == old(device).(tmp := old(device).tmp + {dir})
              || device == old(device).(tmp := old(device).tmp + {dir}, mounts := old(device).mounts + multiset{dir})
      ensures ok ==> device.mounts == old(device).mounts + multiset{dir}
      ensures Cooperative() ==> ok
    {
      ok := Works();
      if !ok {
        return;
      }
      device := device.(tmp := device.tmp + {dir});
      ok := Works();
      if !ok {
        return;
      }
      device := device.(mounts := device.mounts + multiset{dir});
      ok := Works();
    }

    /** A run that could not end properly counts as cancelled if the client has cancelled. */
    method BuildBootImages(cancelled: bool) returns (status: Status)
      modifies this
      ensures device == old(device).(bootImagesBuilt := device.bootImagesBuilt)
      ensures status == Ready || (cancelled && status == Cancelled) || status == NonFatal
      ensures status == Ready ==> device.bootImagesBuilt
      ensures denies(old(steps)) ==> status == if cancelled then Cancelled else NonFatal
      ensures Cooperative() ==> status == Ready
    {
      var ran := Works();
      if !ran {
        return if cancelled then Cancelled else NonFatal;
      }
      var succeeded := Works();
      if !succeeded {
        return NonFatal;
      }
      device := device.(bootImagesBuilt := true);
      return Ready;
    }

    /**
     One call, any step of which may fail or be cancelled. Preparation that was begun and not finished
     is never continued or repeated, and a finished one is left as it is. If nothing fails, it is
     finished afterwards unless it was only begun before.
     */
    method PreRebootInit(cancelled: bool) returns (status: Status)
      requires Good(device)
      modifies this
      ensures Called(old(device), device, status) && (status == Cancelled ==> cancelled)
      ensures status == Ready ==>
                && device.classpathDerived && device.mounts == multiset{ArtApexDataDir, OdrefreshDir}
                && device.bootImagesBuilt && device.metadataSaved
      ensures Cooperative() ==>
                status == if old(device).tmp == {} || PreparationDone in old(device).tmp then Ready else Fatal
    {
      var preparationDone := PreparationDone in device.tmp;
      if !preparationDone {
        var listed := Works();
        if !listed {
          return NonFatal;
        }
        if device.tmp != {} {
          return Fatal;
        }
      }
      var environment := Works();
      if !environment {
        return NonFatal;
      }
      if !preparationDone {
        var derived := DeriveClasspath();
        if !derived {
          return NonFatal;
        }
      }
      environment := Works();
      if !environment {
        return NonFatal;
      }
      if !preparationDone {
        status := MountAndBuild(cancelled);
        if status != Ready {
          return;
        }
        var saved := Works();
        if !saved {
          return NonFatal;
        }
        device := device.(metadataSaved := true);
        var written := Works();
        if !written {
          return NonFatal;
        }
        device := device.(tmp := device.tmp + {PreparationDone});
      }
      return Ready;
    }

    method MountAndBuild(cancelled: bool) returns (status: Status)
      requires device == CLEAN.(tmp := {ClasspathFile}, classpathDerived := true)
      modifies this
      ensures ClasspathFile in device.tmp && !Prepared(device) && Good(device) && device.classpathDerived
      ensures status == Ready ==> device.mounts == multiset{ArtApexDataDir, OdrefreshDir} && device.bootImagesBuilt
      ensures (status == Cancelled ==> cancelled) && (Cooperative() ==> status == Ready)
    {
      var mounted := BindMountNewDir(ArtApexDataDir);
      if !mounted {
        return NonFatal;
      }
      mounted := BindMountNewDir(OdrefreshDir);
      if !mounted {
        return NonFatal;
      }
      var signalKnown := Works();
      if !signalKnown {
        return Fatal;
      }
      status := BuildBootImages(cancelled);
    }
  }

  // --- Any number of calls ---------------------------------------------------------------------

  /** Calls one after another from a clean device: the device before each and at the end, and the answers. */
  predicate IsRun(ds: seq<Device>, answers: seq<Status>) {
    && |ds| == |answers| + 1 && ds[0] == CLEAN
    && forall i :: 0 <= i < |answers| ==> Called(ds[i], ds[i + 1], answers[i])
  }

  lemma {:induction false} EveryRunGood(ds: seq<Device>, answers: seq<Status>, i: nat)
    requires IsRun(ds, answers) && i < |ds|
    ensures Good(ds[i])
  {
    if i > 0 {
      assert Called(ds[i - 1], ds[i], answers[i - 1]);
    }
  }

  /** Once something was done, nothing is done any more. */
  lemma {:induction false} BegunStays(ds: seq<Device>, answers: seq<Status>, i: nat, j: nat)
    requires IsRun(ds, answers) && i <= j < |ds| && ds[i].tmp != {}
    ensures ds[j] == ds[i]
  {
    if i < j {
      BegunStays(ds, answers, i, j - 1);
      assert Called(ds[j - 1], ds[j], answers[j - 1]);
    }
  }

  /**
   In every sequence of calls at most one does any preparation, so that nothing is mounted more
   than once, whatever fails or is cancelled.
   */
  lemma PreparedAtMostOnce(ds: seq<Device>, answers: seq<Status>, i: nat, j: nat)
    requires IsRun(ds, answers) && i < |answers| && j < |answers|
    requires ds[i] != ds[i + 1] && ds[j] != ds[j + 1]
    ensures i == j && ds[i] == CLEAN && ds[|answers|] == ds[i + 1]
    ensures forall e :: ds[|answers|].mounts[e] <= 1
  {
    hide Good, Called;
    var first, second := if i < j then i else j, if i < j then j else i;
    WorkBegins(ds, answers, first);
    BegunStays(ds, answers, first + 1, |answers|);
    if first < second {
      BegunStays(ds, answers, first + 1, second);
      BegunStays(ds, answers, first + 1, second + 1);
    }
    EveryRunGood(ds, answers, |answers|);
    MountedOnce(ds[|answers|]);
  }

  lemma WorkBegins(ds: seq<Device>, answers: seq<Status>, i: nat)
    requires IsRun(ds, answers) && i < |answers| && ds[i] != ds[i + 1]
    ensures ds[i] == CLEAN && ds[i + 1].tmp != {}
  {
    EveryRunGood(ds, answers, i);
    assert Called(ds[i], ds[i + 1], answers[i]);
  }

  lemma MountedOnce(d: Device)
    requires Good(d)
    ensures forall e :: d.mounts[e] <= 1
  {
    forall e: Entry
      ensures d.mounts[e] <= 1
    {
      assert d.mounts[e] <= multiset{ArtApexDataDir, OdrefreshDir}[e];
    }
  }

  /**
   A call is answered `Ready` only if everything has been done, by this call or an earlier one; and
   after a call that began and did not finish no call is ever answered `Ready`.
   */
  lemma ReadyOnlyWhenComplete(ds: seq<Device>, answers: seq<Status>, i: nat, j: nat)
    requires IsRun(ds, answers) && i <= j < |answers| && answers[j] == Ready
    ensures ds[j + 1].classpathDerived && ds[j + 1].mounts == multiset{ArtApexDataDir, OdrefreshDir}
    ensures ds[j + 1].bootImagesBuilt && ds[j + 1].metadataSaved
    ensures ds[i].tmp != {} ==> ds[j + 1] == ds[i]
  {
    assert Called(ds[j], ds[j + 1], answers[j]);
    if ds[i].tmp != {} {
      BegunStays(ds, answers, i, j + 1);
    }
  }
}
