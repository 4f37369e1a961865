/**
 The all-or-nothing editor of src/editing/atomic-edit-planner.ts: a plan is applied file
 by file, and undone in reverse order when an operation fails.
 */
module EditPlanner {
  import opened Wrappers
  import opened LineDiff
  import opened DiffHunks

  datatype ProposedFileChange = ProposedFileChange(path: string, newContent: Option<string>)

  datatype FileEditKind = Create | Modify | Delete
  datatype EditDecision = Pending | Accepted | Rejected

  // An absent content stands for an absent file.
  datatype FileEditPlan = FileEditPlan(
    path: string, kind: FileEditKind, originalContent: Option<string>, newContent: Option<string>,
    hunks: seq<DiffHunk>, added: nat, removed: nat, decision: EditDecision)

  datatype PlanStatus = AwaitingReview | Applied | RolledBack | AllRejected | Failed

  datatype EditError = EditError(path: string, message: string)

  datatype PlanData = PlanData(
    files: seq<FileEditPlan>, status: PlanStatus, appliedPaths: seq<string>, errors: seq<EditError>)

  // ----- the file system

  // Contents by path, and how many writes and deletes were asked for so far.
  datatype Disk = Disk(files: map<string, string>, calls: nat)

  // A failing operation may still leave its path with some other content.
  datatype Fault = Fault(message: string, torn: Option<Option<string>>)

  // Which writes and deletes fail, by their number, and how.
  type Faults = nat -> Option<Fault>

  function Lookup(files: map<string, string>, path: string): Option<string> {
    if path in files then Some(files[path]) else None
  }

  function Store(files: map<string, string>, path: string, content: Option<string>): map<string, string> {
    if content.Some? then files[path := content.value] else files - {path}
  }

  // What a failing operation leaves of the files.
  function Wrecked(files: map<string, string>, path: string, fault: Fault): map<string, string> {
    if fault.torn.Some? then Store(files, path, fault.torn.value) else files
  }

  // One write or delete.
  function Put(disk: Disk, faults: Faults, path: string, content: Option<string>): Disk {
    match faults(disk.calls)
    case None => Disk(Store(disk.files, path, content), disk.calls + 1)
    case Some(fault) => Disk(Wrecked(disk.files, path, fault), disk.calls + 1)
  }

  function Message(fault: Option<Fault>): Option<string> {
    if fault.Some? then Some(fault.value.message) else None
  }

  class EditFileSystem {
    const faults: Faults
    const readFaults: string -> Option<string>
    var disk: Disk

    constructor (files: map<string, string>, faults: Faults, readFaults: string -> Option<string>)
      ensures disk == Disk(files, 0) && this.faults == faults && this.readFaults == readFaults
    {
      this.faults := faults;
      this.readFaults := readFaults;
      disk := Disk(files, 0);
    }

    method ReadFile(path: string) returns (r: Result<Option<string>, string>)
      ensures r == if readFaults(path).Some? then Err(readFaults(path).value) else Ok(Lookup(disk.files, path))
    {
      if readFaults(path).Some? {
        return Err(readFaults(path).value);
      }
      return Ok(Lookup(disk.files, path));
    }

    method WriteFile(path: string, content: string) returns (error: Option<string>)
      modifies this
      ensures disk == Put(old(disk), faults, path, Some(content)) && error == Message(faults(old(disk).calls))
    {
      var fault := faults(disk.calls);
      error := Message(fault);
      disk := Disk(if fault.Some? then Wrecked(disk.files, path, fault.value) else disk.files[path := content], disk.calls + 1);
    }

    method DeleteFile(path: string) returns (error: Option<string>)
      modifies this
      ensures disk == Put(old(disk), faults, path, None) && error == Message(faults(old(disk).calls))
    {
      var fault := faults(disk.calls);
      error := Message(fault);
      disk := Disk(if fault.Some? then Wrecked(disk.files, path, fault.value) else disk.files - {path}, disk.calls + 1);
    }
  }

  // ----- what apply and rollback do to a plan and the disk

  datatype Scene = Scene(plan: PlanData, disk: Disk)

  function AcceptedFiles(files: seq<FileEditPlan>): seq<FileEditPlan> {
    if files == [] then [] else
      (if files[0].decision == Accepted then [files[0]] else []) + AcceptedFiles(files[1..])
  }

  // The first entry for a path.
  function FindFile(files: seq<FileEditPlan>, path: string): (i: Option<nat>)
    ensures i.Some? ==> i.value < |files| && files[i.value].path == path
    ensures i.Some? ==> forall k :: 0 <= k < i.value ==> files[k].path != path
    ensures i.None? ==> forall k :: 0 <= k < |files| ==> files[k].path != path
  {
    if files == [] then None
    else if files[0].path == path then Some(0)
    else match FindFile(files[1..], path)
      case None => None
      case Some(k) => Some(k + 1)
  }

  const ROLLBACK_FAILED := "rollback failed: "

  // Restores the given paths from the last to the first.
  function RestoreFrom(s: Scene, faults: Faults, paths: seq<string>, failed: bool): Scene
    decreases |paths|
  {
    if paths == [] then s.(plan := s.plan.(status := if failed then Failed else RolledBack)) else
      var path, rest := paths[|paths| - 1], paths[..|paths| - 1];
      match FindFile(s.plan.files, path)
      case None => RestoreFrom(s, faults, rest, failed)
      case Some(i) =>
        var disk := Put(s.disk, faults, path, s.plan.files[i].originalContent);
        match faults(s.disk.calls)
        case None => RestoreFrom(s.(disk := disk), faults, rest, failed)
        case Some(fault) =>
          RestoreFrom(Scene(s.plan.(errors := s.plan.errors + [EditError(path, ROLLBACK_FAILED + fault.message)]), disk),
                      faults, rest, true)
  }

  function RollbackScene(s: Scene, faults: Faults): Scene {
    RestoreFrom(s, faults, s.plan.appliedPaths, false)
  }

  // Writes the given files in order; the first failure rolls everything back.
  function ApplyFrom(s: Scene, faults: Faults, todo: seq<FileEditPlan>): Scene
    decreases |todo|
  {
    if todo == [] then s.(plan := s.plan.(status := Applied)) else
      var path := todo[0].path;
      var disk := Put(s.disk, faults, path, todo[0].newContent);
      match faults(s.disk.calls)
      case None => ApplyFrom(Scene(s.plan.(appliedPaths := s.plan.appliedPaths + [path]), disk), faults, todo[1..])
      case Some(fault) =>
        RollbackScene(Scene(s.plan.(errors := s.plan.errors + [EditError(path, fault.message)]), disk), faults)
  }

  function ApplyScene(s: Scene, faults: Faults): Scene {
    var accepted := AcceptedFiles(s.plan.files);
    if accepted == [] then s.(plan := s.plan.(status := AllRejected)) else ApplyFrom(s, faults, accepted)
  }

  // ----- the invariant of a plan and the disk it edits

  // The disk agrees with `base` on every path that is neither listed nor among the torn.
  ghost predicate CleanExcept(files: map<string, string>, base: map<string, string>, paths: seq<string>, torn: set<string>) {
    forall p :: p !in paths && p !in torn ==> Lookup(files, p) == Lookup(base, p)
  }

  // Every entry remembers what `base` holds at its path.
  ghost predicate Remembers(files: seq<FileEditPlan>, base: map<string, string>) {
    forall f :: f in files ==> f.originalContent == Lookup(base, f.path)
  }

  ghost predicate Planned(files: seq<FileEditPlan>, paths: seq<string>) {
    forall p :: p in paths ==> FindFile(files, p).Some?
  }

  // `base` is the disk at planning time. Only applied paths, and those that a failing operation has
  // torn, may differ from it, and before an apply and after a rollback the torn ones alone.
  ghost predicate Tracks(s: Scene, base: map<string, string>, torn: set<string>) {
    && Remembers(s.plan.files, base)
    && Planned(s.plan.files, s.plan.appliedPaths)
    && CleanExcept(s.disk.files, base, s.plan.appliedPaths, torn)
    && (s.plan.status in {AwaitingReview, RolledBack} ==> CleanExcept(s.disk.files, base, [], torn))
  }

  ghost predicate NoFaults(faults: Faults, from: nat, n: nat) {
    forall i :: from <= i < from + n ==> faults(i) == None
  }

  lemma NextFault(faults: Faults, from: nat, n: nat)
    requires n > 0
    ensures NoFaults(faults, from, n) <==> faults(from) == None && NoFaults(faults, from + 1, n - 1)
  {
  }

  lemma SameLookups(a: map<string, string>, b: map<string, string>)
    requires forall p :: Lookup(a, p) == Lookup(b, p)
    ensures a == b
  {
    assert forall p :: p in a <==> Lookup(a, p).Some?;
    assert forall p :: p in b <==> Lookup(b, p).Some?;
    assert forall p :: p in a ==> Lookup(a, p) == Some(a[p]) == Some(b[p]);
  }

  // What is noted of one restore.
  function Reported(fault: Option<Fault>, path: string): seq<EditError> {
    if fault.None? then [] else [EditError(path, ROLLBACK_FAILED + fault.value.message)]
  }

  // The errors of restoring the given paths, from the last to the first.
  function RestoreErrors(faults: Faults, from: nat, paths: seq<string>): seq<EditError>
    decreases |paths|
  {
    if paths == [] then [] else
      Reported(faults(from), paths[|paths| - 1]) + RestoreErrors(faults, from + 1, paths[..|paths| - 1])
  }

  lemma NextErrors(faults: Faults, from: nat, paths: seq<string>, before: seq<EditError>)
    ensures paths == [] ==> before + RestoreErrors(faults, from, paths) == before
    ensures paths != [] ==>
      before + RestoreErrors(faults, from, paths) ==
      before + Reported(faults(from), paths[|paths| - 1]) + RestoreErrors(faults, from + 1, paths[..|paths| - 1])
  {
    hide Reported;
  }

  // Restoring leaves the plan's files and paths alone, succeeds exactly when none of its
  // operations fails, and adds one error for each that does.
  lemma {:induction false} RestoreStatus(s: Scene, faults: Faults, paths: seq<string>, failed: bool)
    requires Planned(s.plan.files, paths)
    ensures var r := RestoreFrom(s, faults, paths, failed);
      && r.plan.files == s.plan.files && r.plan.appliedPaths == s.plan.appliedPaths
      && r.plan.status == (if !failed && NoFaults(faults, s.disk.calls, |paths|) then RolledBack else Failed)
      && r.disk.calls == s.disk.calls + |paths|
      && r.plan.errors == s.plan.errors + RestoreErrors(faults, s.disk.calls, paths)
      && (NoFaults(faults, s.disk.calls, |paths|) <==> r.plan.errors == s.plan.errors)
    decreases |paths|
  {
    NextErrors(faults, s.disk.calls, paths, s.plan.errors);
    hide RestoreErrors;
    if paths != [] {
      NextFault(faults, s.disk.calls, |paths|);
      hide NoFaults, Put;
      var path, rest := paths[|paths| - 1], paths[..|paths| - 1];
      assert path in paths && forall p :: p in rest ==> p in paths;
      var disk := Put(s.disk, faults, path, s.plan.files[FindFile(s.plan.files, path).value].originalContent);
      OneCall(s.disk, faults, path, s.plan.files[FindFile(s.plan.files, path).value].originalContent);
      match faults(s.disk.calls)
      case None =>
        RestoreStatus(s.(disk := disk), faults, rest, failed);
        assert s.plan.errors + [] == s.plan.errors;
      case Some(fault) =>
        var error := EditError(path, ROLLBACK_FAILED + fault.message);
        RestoreStatus(Scene(s.plan.(errors := s.plan.errors + [error]), disk), faults, rest, true);
        assert |s.plan.errors + [error] + RestoreErrors(faults, s.disk.calls + 1, rest)| > |s.plan.errors|;
    }
  }

  lemma OneCall(disk: Disk, faults: Faults, path: string, content: Option<string>)
    ensures Put(disk, faults, path, content).calls == disk.calls + 1
  {
  }

  // No operation fails that restores this path, the list being worked off from its end.
  ghost predicate Spared(faults: Faults, from: nat, paths: seq<string>, p: string) {
    forall i :: 0 <= i < |paths| && paths[i] == p ==> faults(from + (|paths| - 1 - i)) == None
  }

  lemma NextSpared(faults: Faults, from: nat, paths: seq<string>, p: string)
    requires paths != []
    ensures var n := |paths| - 1;
      Spared(faults, from, paths, p) <==> (paths[n] == p ==> faults(from) == None) && Spared(faults, from + 1, paths[..n], p)
  {
    var n := |paths| - 1;
    assert forall i :: 0 <= i < n ==> paths[..n][i] == paths[i] && from + 1 + (n - 1 - i) == from + (n - i);
  }

  // Restoring touches no path outside the list, and makes every listed path agree that it is
  // spared on.
  lemma {:induction false} RestoreContents(s: Scene, faults: Faults, paths: seq<string>, failed: bool, base: map<string, string>, p: string)
    requires Remembers(s.plan.files, base) && Planned(s.plan.files, paths)
    ensures var r := RestoreFrom(s, faults, paths, failed);
      && (p !in paths ==> Lookup(r.disk.files, p) == Lookup(s.disk.files, p))
      && (Spared(faults, s.disk.calls, paths, p) && (p in paths || Lookup(s.disk.files, p) == Lookup(base, p)) ==>
            Lookup(r.disk.files, p) == Lookup(base, p))
    decreases |paths|
  {
    if paths != [] {
      hide Lookup, Spared, RestoredOne, FindFile, Put;
      NextSpared(faults, s.disk.calls, paths, p);
      var path, rest := paths[|paths| - 1], paths[..|paths| - 1];
      assert path in paths && forall q :: q in rest ==> q in paths;
      assert p in paths ==> p == path || p in rest;
      NextRestore(s, faults, paths, failed);
      OneRestored(s, faults, path, base, p);
      hide RestoreFrom;
      RestoreContents(RestoredOne(s, faults, path), faults, rest, failed || faults(s.disk.calls) != None, base, p);
    }
  }

  // The scene after one restore, failing or not.
  function RestoredOne(s: Scene, faults: Faults, path: string): Scene
    requires FindFile(s.plan.files, path).Some?
  {
    var disk := Put(s.disk, faults, path, s.plan.files[FindFile(s.plan.files, path).value].originalContent);
    match faults(s.disk.calls)
    case None => s.(disk := disk)
    case Some(fault) => Scene(s.plan.(errors := s.plan.errors + [EditError(path, ROLLBACK_FAILED + fault.message)]), disk)
  }

  lemma NextRestore(s: Scene, faults: Faults, paths: seq<string>, failed: bool)
    requires paths != [] && FindFile(s.plan.files, paths[|paths| - 1]).Some?
    ensures RestoreFrom(s, faults, paths, failed) ==
      RestoreFrom(RestoredOne(s, faults, paths[|paths| - 1]), faults, paths[..|paths| - 1], failed || faults(s.disk.calls) != None)
  {
  }

  lemma OneRestored(s: Scene, faults: Faults, path: string, base: map<string, string>, p: string)
    requires Remembers(s.plan.files, base) && FindFile(s.plan.files, path).Some?
    ensures var r := RestoredOne(s, faults, path);
      && r.plan.files == s.plan.files && r.disk.calls == s.disk.calls + 1
      && (p != path ==> Lookup(r.disk.files, p) == Lookup(s.disk.files, p))
      && (p == path && faults(s.disk.calls) == None ==> Lookup(r.disk.files, p) == Lookup(base, p))
  {
    var i := FindFile(s.plan.files, path).value;
    assert s.plan.files[i] in s.plan.files;
  }

  /**
   A rollback is marked as done exactly when no restore failed, adds one error for each that did,
   and leaves only torn paths behind; a torn path that was applied too is restored with the others.
   Whatever becomes of other paths, one whose own restores succeed is restored.
   */
  lemma RollbackOutcome(s: Scene, faults: Faults, base: map<string, string>, torn: set<string>)
    requires Remembers(s.plan.files, base) && Planned(s.plan.files, s.plan.appliedPaths)
    requires CleanExcept(s.disk.files, base, s.plan.appliedPaths, torn)
    ensures var r, n := RollbackScene(s, faults), |s.plan.appliedPaths|;
      && Tracks(r, base, torn)
      && r.plan.files == s.plan.files && r.plan.appliedPaths == s.plan.appliedPaths
      && r.plan.errors == s.plan.errors + RestoreErrors(faults, s.disk.calls, s.plan.appliedPaths)
      && r.plan.status == (if NoFaults(faults, s.disk.calls, n) then RolledBack else Failed)
      && (r.plan.status == RolledBack <==> r.plan.errors == s.plan.errors)
      && (forall p :: p !in s.plan.appliedPaths ==> Lookup(r.disk.files, p) == Lookup(s.disk.files, p))
      && (r.plan.status == RolledBack ==> forall p :: p in s.plan.appliedPaths ==> Lookup(r.disk.files, p) == Lookup(base, p))
      && (forall p :: p in s.plan.appliedPaths && Spared(faults, s.disk.calls, s.plan.appliedPaths, p) ==>
            Lookup(r.disk.files, p) == Lookup(base, p))
  {
    RestoreStatus(s, faults, s.plan.appliedPaths, false);
    var r := RollbackScene(s, faults);
    forall p
      ensures p !in s.plan.appliedPaths ==> Lookup(r.disk.files, p) == Lookup(s.disk.files, p)
      ensures r.plan.status == RolledBack ==> Spared(faults, s.disk.calls, s.plan.appliedPaths, p)
      ensures p in s.plan.appliedPaths && Spared(faults, s.disk.calls, s.plan.appliedPaths, p) ==>
        Lookup(r.disk.files, p) == Lookup(base, p)
    {
      RestoreContents(s, faults, s.plan.appliedPaths, false, base, p);
    }
    hide RestoreErrors, NoFaults, RestoreFrom, Lookup, FindFile, Spared;
  }

  // Which of the next n operations fail, in order.
  function Failing(faults: Faults, from: nat, n: nat): (failing: seq<nat>)
    ensures forall m :: 0 <= m < |failing| ==> failing[m] < n && faults(from + failing[m]) != None
    ensures forall l, m :: 0 <= l < m < |failing| ==> failing[l] < failing[m]
    ensures forall j :: 0 <= j < n && faults(from + j) != None ==> j in failing
  {
    if n == 0 then [] else
      var before := Failing(faults, from, n - 1);
      if faults(from + (n - 1)) != None then before + [n - 1] else before
  }

  lemma RestoreErrorsEnds(faults: Faults, from: nat, paths: seq<string>)
    ensures paths == [] ==> RestoreErrors(faults, from, paths) == []
    ensures paths != [] ==>
      RestoreErrors(faults, from, paths) ==
      Reported(faults(from), paths[|paths| - 1]) + RestoreErrors(faults, from + 1, paths[..|paths| - 1])
  {
    hide Reported;
  }

  // The first path is restored last.
  lemma {:induction false} LastRestoreError(faults: Faults, from: nat, paths: seq<string>)
    requires paths != []
    ensures RestoreErrors(faults, from, paths) ==
      RestoreErrors(faults, from, paths[1..]) + Reported(faults(from + (|paths| - 1)), paths[0])
    decreases |paths|
  {
    hide RestoreErrors, Reported;
    var n := |paths| - 1;
    RestoreErrorsEnds(faults, from, paths);
    RestoreErrorsEnds(faults, from, paths[1..]);
    if n > 0 {
      LastRestoreError(faults, from + 1, paths[..n]);
      assert paths[..n][1..] == paths[1..][..n - 1] && from + 1 + (n - 1) == from + n;
    } else {
      RestoreErrorsEnds(faults, from + 1, paths[..0]);
      assert Reported(faults(from), paths[0]) + [] == [] + Reported(faults(from), paths[0]);
    }
  }

  /**
   The errors of a rollback, in the order of the restores, which go from the last applied path to
   the first: one for each that fails.
   */
  lemma {:induction false} RestoreErrorsAre(faults: Faults, from: nat, paths: seq<string>)
    ensures var errors, failing := RestoreErrors(faults, from, paths), Failing(faults, from, |paths|);
      && |errors| == |failing|
      && forall m :: 0 <= m < |errors| ==>
           errors[m] ==
           EditError(paths[|paths| - 1 - failing[m]], "rollback failed: " + faults(from + failing[m]).value.message)
    decreases |paths|
  {
    hide RestoreErrors;
    if paths != [] {
      RestoreErrorsAre(faults, from, paths[1..]);
      LastRestoreError(faults, from, paths);
    } else {
      RestoreErrorsEnds(faults, from, paths);
    }
  }

  // ----- applying

  // The disk with the new contents of the given files put in place, in order.
  function Written(files: map<string, string>, todo: seq<FileEditPlan>): map<string, string>
    decreases |todo|
  {
    if todo == [] then files else Written(Store(files, todo[0].path, todo[0].newContent), todo[1..])
  }

  // The content the last of the given files proposes for a path.
  function LastContent(todo: seq<FileEditPlan>, path: string): Option<Option<string>> {
    if todo == [] then None
    else LastContent(todo[1..], path).OrElse(if todo[0].path == path then Some(todo[0].newContent) else None)
  }

  // Written puts, at each path, the last content proposed for it, and leaves other paths alone.
  lemma {:induction false} WrittenLookup(files: map<string, string>, todo: seq<FileEditPlan>, p: string)
    ensures Lookup(Written(files, todo), p) == LastContent(todo, p).GetOr(Lookup(files, p))
    decreases |todo|
  {
    if todo != [] {
      WrittenLookup(Store(files, todo[0].path, todo[0].newContent), todo[1..], p);
    }
  }

  function Paths(todo: seq<FileEditPlan>): seq<string> {
    seq(|todo|, i requires 0 <= i < |todo| => todo[i].path)
  }

  lemma {:induction false} AcceptedAreFiles(files: seq<FileEditPlan>)
    ensures forall f :: f in AcceptedFiles(files) <==> f in files && f.decision == Accepted
  {
    if files != [] {
      AcceptedAreFiles(files[1..]);
    }
  }

  // The places of the accepted entries among the first n of a plan, in order.
  function AcceptedPlaces(files: seq<FileEditPlan>, n: nat): (at: seq<nat>)
    requires n <= |files|
    ensures forall m :: 0 <= m < |at| ==> at[m] < n && files[at[m]].decision == Accepted
    ensures forall l, m :: 0 <= l < m < |at| ==> at[l] < at[m]
    ensures forall p :: 0 <= p < n && files[p].decision == Accepted ==> p in at
  {
    if n == 0 then [] else
      var before := AcceptedPlaces(files, n - 1);
      if files[n - 1].decision == Accepted then before + [n - 1] else before
  }

  lemma {:induction false} AcceptedSnoc(files: seq<FileEditPlan>, f: FileEditPlan)
    ensures AcceptedFiles(files + [f]) == AcceptedFiles(files) + if f.decision == Accepted then [f] else []
  {
    hide AcceptedFiles;
    AcceptedHead(files + [f]);
    AcceptedHead(files);
    if files == [] {
      AcceptedHead([]);
      assert (files + [f])[1..] == [] && (files + [f])[0] == f;
    } else {
      AcceptedSnoc(files[1..], f);
      assert (files + [f])[1..] == files[1..] + [f];
    }
  }

  lemma AcceptedHead(files: seq<FileEditPlan>)
    ensures files == [] ==> AcceptedFiles(files) == []
    ensures files != [] ==>
      AcceptedFiles(files) ==
      (if files[0].decision == Accepted then [files[0]] else []) + AcceptedFiles(files[1..])
  {
  }

  function AcceptedPaths(files: seq<FileEditPlan>): seq<string> {
    var at := AcceptedPlaces(files, |files|);
    seq(|at|, i requires 0 <= i < |at| => files[at[i]].path)
  }

  lemma AcceptedPathsAre(files: seq<FileEditPlan>)
    ensures Paths(AcceptedFiles(files)) == AcceptedPaths(files) && |AcceptedPaths(files)| == |AcceptedFiles(files)|
  {
    AcceptedInOrder(files, |files|);
    assert files[..|files|] == files;
    hide AcceptedFiles, AcceptedPlaces;
  }

  // The accepted files are the entries at those places.
  lemma {:induction false} AcceptedInOrder(files: seq<FileEditPlan>, n: nat)
    requires n <= |files|
    ensures var todo, at := AcceptedFiles(files[..n]), AcceptedPlaces(files, n);
      |todo| == |at| && forall i :: 0 <= i < |at| ==> todo[i] == files[at[i]]
  {
    if n > 0 {
      AcceptedInOrder(files, n - 1);
      AcceptedSnoc(files[..n - 1], files[n - 1]);
      assert files[..n] == files[..n - 1] + [files[n - 1]];
    }
  }

  // The last accepted entry for a path.
  function LastAccepted(files: seq<FileEditPlan>, p: string): (n: Option<nat>)
    ensures n.Some? ==> n.value < |files| && files[n.value].decision == Accepted && files[n.value].path == p
    ensures forall m :: 0 <= m < |files| && files[m].decision == Accepted && files[m].path == p ==> n.Some? && m <= n.value
  {
    if files == [] then None else
      var n := |files| - 1;
      if files[n].decision == Accepted && files[n].path == p then Some(n) else LastAccepted(files[..n], p)
  }

  // What a plan proposes for a path: the content of its last accepted entry, or what is there.
  function Proposed(files: seq<FileEditPlan>, disk: map<string, string>, p: string): Option<string> {
    match LastAccepted(files, p) case None => Lookup(disk, p) case Some(n) => files[n].newContent
  }

  lemma {:induction false} LastContentAt(todo: seq<FileEditPlan>, p: string)
    ensures LastContent(todo, p).None? ==> forall i :: 0 <= i < |todo| ==> todo[i].path != p
    ensures LastContent(todo, p).Some? ==>
      exists i :: 0 <= i < |todo| && todo[i].path == p && todo[i].newContent == LastContent(todo, p).value
        && forall j :: i < j < |todo| ==> todo[j].path != p
  {
    if todo != [] {
      LastContentAt(todo[1..], p);
      if LastContent(todo[1..], p).Some? {
        var i :| 0 <= i < |todo[1..]| && todo[1..][i].path == p && todo[1..][i].newContent == LastContent(todo[1..], p).value
          && forall j :: i < j < |todo[1..]| ==> todo[1..][j].path != p;
        assert todo[i + 1].path == p;
        assert forall j :: i + 1 < j < |todo| ==> todo[j] == todo[1..][j - 1];
      } else {
        assert forall j :: 1 <= j < |todo| ==> todo[j] == todo[1..][j - 1];
      }
    }
  }

  // Writing the accepted files leaves at each path what the plan proposes for it.
  lemma WrittenIsProposed(files: seq<FileEditPlan>, disk: map<string, string>, p: string)
    ensures Lookup(Written(disk, AcceptedFiles(files)), p) == Proposed(files, disk, p)
  {
    hide Written, LastContent, AcceptedFiles, AcceptedPlaces, LastAccepted, Lookup;
    WrittenLookup(disk, AcceptedFiles(files), p);
    LastContentIs(files, p);
  }

  lemma LastContentIs(files: seq<FileEditPlan>, p: string)
    ensures LastContent(AcceptedFiles(files), p) ==
      match LastAccepted(files, p) case None => None case Some(n) => Some(files[n].newContent)
  {
    hide LastContent, AcceptedFiles, AcceptedPlaces, LastAccepted;
    var todo, at, last := AcceptedFiles(files), AcceptedPlaces(files, |files|), LastAccepted(files, p);
    AcceptedInOrder(files, |files|);
    assert files[..|files|] == files;
    LastContentAt(todo, p);
    if last.Some? {
      assert last.value in at;
      var i :| 0 <= i < |at| && at[i] == last.value;
      assert todo[i].path == p;
    }
  }

  // Number of operations before the first failing one among the next n, or n.
  function Succeeding(faults: Faults, from: nat, n: nat): (k: nat)
    ensures k <= n && NoFaults(faults, from, k)
    ensures k < n ==> faults(from + k) != None
    decreases n
  {
    if n == 0 || faults(from) != None then 0 else Succeeding(faults, from + 1, n - 1) + 1
  }

  // The scene when operation k is the first to fail: what went before is written and noted,
  // what it tore is on the disk, and the error is on record.
  function Halted(s: Scene, faults: Faults, todo: seq<FileEditPlan>, k: nat): Scene
    requires k < |todo| && faults(s.disk.calls + k).Some?
  {
    var fault := faults(s.disk.calls + k).value;
    Scene(s.plan.(appliedPaths := s.plan.appliedPaths + Paths(todo[..k]),
                  errors := s.plan.errors + [EditError(todo[k].path, fault.message)]),
          Disk(Wrecked(Written(s.disk.files, todo[..k]), todo[k].path, fault), s.disk.calls + k + 1))
  }

  // Where applying stops: after the last file, or with a rollback of everything applied so far.
  function Stopped(s: Scene, faults: Faults, todo: seq<FileEditPlan>): Scene {
    var k := Succeeding(faults, s.disk.calls, |todo|);
    if k < |todo| then RollbackScene(Halted(s, faults, todo, k), faults) else
      Scene(s.plan.(appliedPaths := s.plan.appliedPaths + Paths(todo), status := Applied),
            Disk(Written(s.disk.files, todo), s.disk.calls + k))
  }

  // The scene after the first file of the list is in place.
  function FirstWritten(s: Scene, faults: Faults, todo: seq<FileEditPlan>): Scene
    requires todo != []
  {
    Scene(s.plan.(appliedPaths := s.plan.appliedPaths + [todo[0].path]),
          Put(s.disk, faults, todo[0].path, todo[0].newContent))
  }

  lemma HaltedLater(s: Scene, faults: Faults, todo: seq<FileEditPlan>, k: nat)
    requires 1 <= k < |todo| && faults(s.disk.calls).None? && faults(s.disk.calls + k).Some?
    ensures Halted(FirstWritten(s, faults, todo), faults, todo[1..], k - 1) == Halted(s, faults, todo, k)
  {
    assert todo[..k][1..] == todo[1..][..k - 1];
    assert [todo[0].path] + Paths(todo[1..][..k - 1]) == Paths(todo[..k]);
    assert s.plan.appliedPaths + [todo[0].path] + Paths(todo[1..][..k - 1]) == s.plan.appliedPaths + Paths(todo[..k]);
  }

  lemma {:induction false} ApplyStops(s: Scene, faults: Faults, todo: seq<FileEditPlan>)
    ensures ApplyFrom(s, faults, todo) == Stopped(s, faults, todo)
    decreases |todo|
  {
    hide RollbackScene, Halted;
    if todo == [] {
      assert s.plan.appliedPaths + Paths([]) == s.plan.appliedPaths;
    } else if faults(s.disk.calls) == None {
      ApplyStops(FirstWritten(s, faults, todo), faults, todo[1..]);
      var k := Succeeding(faults, s.disk.calls, |todo|);
      if k < |todo| {
        HaltedLater(s, faults, todo, k);
      } else {
        assert s.plan.appliedPaths + [todo[0].path] + Paths(todo[1..]) == s.plan.appliedPaths + Paths(todo);
      }
    } else {
      HaltedNow(s, faults, todo);
    }
  }

  lemma HaltedNow(s: Scene, faults: Faults, todo: seq<FileEditPlan>)
    requires todo != [] && faults(s.disk.calls).Some?
    ensures Halted(s, faults, todo, 0) ==
            Scene(s.plan.(errors := s.plan.errors + [EditError(todo[0].path, faults(s.disk.calls).value.message)]),
                  Put(s.disk, faults, todo[0].path, todo[0].newContent))
  {
    assert s.plan.appliedPaths + Paths(todo[..0]) == s.plan.appliedPaths;
  }

  // Writing the given files touches only their paths.
  lemma WrittenStaysClean(s: Scene, todo: seq<FileEditPlan>, k: nat, base: map<string, string>, torn: set<string>)
    requires k <= |todo| && forall f :: f in todo ==> f in s.plan.files
    requires Planned(s.plan.files, s.plan.appliedPaths) && CleanExcept(s.disk.files, base, s.plan.appliedPaths, torn)
    ensures var applied := s.plan.appliedPaths + Paths(todo[..k]);
            Planned(s.plan.files, applied) && CleanExcept(Written(s.disk.files, todo[..k]), base, applied, torn)
  {
    var paths := Paths(todo[..k]);
    forall p | p in paths
      ensures FindFile(s.plan.files, p).Some?
    {
      var i :| 0 <= i < k && todo[i].path == p;
      PathFound(s.plan.files, todo[i]);
    }
    forall p | p !in s.plan.appliedPaths + paths && p !in torn
      ensures Lookup(Written(s.disk.files, todo[..k]), p) == Lookup(base, p)
    {
      WrittenLookup(s.disk.files, todo[..k], p);
      assert forall i :: 0 <= i < k ==> paths[i] in paths && todo[..k][i].path == paths[i];
      NotProposed(todo[..k], p);
    }
  }

  // The path that an apply tears and will not restore, if there is one: that of the first failing
  // operation, when it was not applied before.
  function TornPath(s: Scene, faults: Faults): set<string> {
    var todo := AcceptedFiles(s.plan.files);
    var k := Succeeding(faults, s.disk.calls, |todo|);
    if k < |todo| && faults(s.disk.calls + k).value.torn.Some? && todo[k].path !in s.plan.appliedPaths + Paths(todo[..k])
    then {todo[k].path} else {}
  }

  // What it leaves there.
  function TornContent(s: Scene, faults: Faults): Option<string>
    requires TornPath(s, faults) != {}
  {
    faults(s.disk.calls + Succeeding(faults, s.disk.calls, |AcceptedFiles(s.plan.files)|)).value.torn.value
  }

  lemma HaltedStaysClean(s: Scene, faults: Faults, k: nat, base: map<string, string>, torn: set<string>)
    requires Planned(s.plan.files, s.plan.appliedPaths) && CleanExcept(s.disk.files, base, s.plan.appliedPaths, torn)
    requires k == Succeeding(faults, s.disk.calls, |AcceptedFiles(s.plan.files)|) < |AcceptedFiles(s.plan.files)|
    ensures var h := Halted(s, faults, AcceptedFiles(s.plan.files), k);
      && Planned(h.plan.files, h.plan.appliedPaths)
      && CleanExcept(h.disk.files, base, h.plan.appliedPaths, torn + TornPath(s, faults))
      && (TornPath(s, faults) != {} ==>
            forall p :: p in TornPath(s, faults) ==> p !in h.plan.appliedPaths && Lookup(h.disk.files, p) == TornContent(s, faults))
  {
    var todo := AcceptedFiles(s.plan.files);
    AcceptedAreFiles(s.plan.files);
    hide Written, AcceptedFiles, Succeeding, Paths, Lookup, Halted;
    WrittenStaysClean(s, todo, k, base, torn);
    HaltedIs(s, faults, todo, k);
    hide Planned;
  }

  lemma HaltedIs(s: Scene, faults: Faults, todo: seq<FileEditPlan>, k: nat)
    requires k < |todo| && faults(s.disk.calls + k).Some?
    ensures var h, torn := Halted(s, faults, todo, k), faults(s.disk.calls + k).value.torn;
      && h.plan.files == s.plan.files && h.plan.appliedPaths == s.plan.appliedPaths + Paths(todo[..k])
      && forall p :: Lookup(h.disk.files, p) ==
           if p == todo[k].path && torn.Some? then torn.value else Lookup(Written(s.disk.files, todo[..k]), p)
  {
    hide Written, Paths, Lookup, Wrecked;
    forall p
      ensures Lookup(Halted(s, faults, todo, k).disk.files, p) ==
        if p == todo[k].path && faults(s.disk.calls + k).value.torn.Some? then faults(s.disk.calls + k).value.torn.value
        else Lookup(Written(s.disk.files, todo[..k]), p)
    {
      WreckedLookup(Written(s.disk.files, todo[..k]), todo[k].path, faults(s.disk.calls + k).value, p);
    }
  }

  lemma WreckedLookup(files: map<string, string>, path: string, fault: Fault, p: string)
    ensures Lookup(Wrecked(files, path, fault), p) ==
      if p == path && fault.torn.Some? then fault.torn.value else Lookup(files, p)
  {
  }

  lemma {:induction false} NotProposed(todo: seq<FileEditPlan>, p: string)
    requires forall i :: 0 <= i < |todo| ==> todo[i].path != p
    ensures LastContent(todo, p) == None
  {
    if todo != [] {
      NotProposed(todo[1..], p);
    }
  }

  lemma PathFound(files: seq<FileEditPlan>, f: FileEditPlan)
    requires f in files
    ensures FindFile(files, f.path).Some?
  {
  }

  /**
   One apply either puts every accepted file's last accepted content in place and touches nothing
   else, or leaves the disk as it was at planning time but for torn paths, or reports that a restore
   itself failed. Which one it is depends only on which operations fail.
   */
  lemma ApplyOutcome(s: Scene, faults: Faults, base: map<string, string>, torn: set<string>)
    requires Tracks(s, base, torn)
    ensures Tracks(ApplyScene(s, faults), base, torn + TornPath(s, faults))
    ensures var todo := AcceptedFiles(s.plan.files);
      var k := Succeeding(faults, s.disk.calls, |todo|);
      ApplyScene(s, faults).plan.appliedPaths == s.plan.appliedPaths + Paths(todo[..k])
    ensures var r, todo := ApplyScene(s, faults), AcceptedFiles(s.plan.files);
      var k := Succeeding(faults, s.disk.calls, |todo|);
      match r.plan.status
      case Applied =>
        && todo != [] && k == |todo|
        && r.disk.files == Written(s.disk.files, todo) && r.plan.errors == s.plan.errors
      case RolledBack =>
        && k < |todo| && NoFaults(faults, s.disk.calls + k + 1, |s.plan.appliedPaths| + k)
        && CleanExcept(r.disk.files, base, [], torn + TornPath(s, faults))
        && (forall p :: p in TornPath(s, faults) ==> Lookup(r.disk.files, p) == TornContent(s, faults))
        && r.plan.errors == s.plan.errors + [EditError(todo[k].path, faults(s.disk.calls + k).value.message)]
      case Failed =>
        && k < |todo| && !NoFaults(faults, s.disk.calls + k + 1, |s.plan.appliedPaths| + k)
        && r.plan.errors == s.plan.errors + [EditError(todo[k].path, faults(s.disk.calls + k).value.message)]
                            + RestoreErrors(faults, s.disk.calls + k + 1, r.plan.appliedPaths)
        && |r.plan.errors| > |s.plan.errors| + 1
      case AllRejected => todo == [] && r.disk == s.disk
      case AwaitingReview => false
  {
    hide RestoreFrom, RestoreErrors, Written, CleanExcept, Remembers, Planned, NoFaults, AcceptedFiles, TornPath, TornContent;
    var todo := AcceptedFiles(s.plan.files);
    AcceptedAreFiles(s.plan.files);
    if todo != [] {
      ApplyStops(s, faults, todo);
      var k := Succeeding(faults, s.disk.calls, |todo|);
      if k < |todo| {
        HaltedStaysClean(s, faults, k, base, torn);
        RollbackOutcome(Halted(s, faults, todo, k), faults, base, torn + TornPath(s, faults));
        assert |Paths(todo[..k])| == k;
      } else {
        WrittenStaysClean(s, todo, k, base, torn);
        assert todo[..k] == todo;
        NothingTorn(s, faults);
        assert torn + TornPath(s, faults) == torn;
      }
    } else {
      NothingTorn(s, faults);
      assert torn + TornPath(s, faults) == torn;
    }
  }

  lemma NothingTorn(s: Scene, faults: Faults)
    requires Succeeding(faults, s.disk.calls, |AcceptedFiles(s.plan.files)|) == |AcceptedFiles(s.plan.files)|
    ensures TornPath(s, faults) == {}
  {
  }

  // The failing operation of an apply leaves something else than what was there, where nothing restores it.
  predicate Tears(s: Scene, faults: Faults, base: map<string, string>) {
    TornPath(s, faults) != {} && forall p :: p in TornPath(s, faults) ==> TornContent(s, faults) != Lookup(base, p)
  }

  /**
   All or nothing, for an apply that finds the disk of planning time: unless a restore failed, the
   disk ends with every accepted file's last accepted content, or as it was, exactly when the
   failing operation does not tear a file; a torn file is the one thing a rollback leaves.
   */
  lemma ApplyIsAtomic(s: Scene, faults: Faults, base: map<string, string>)
    requires Tracks(s, base, {}) && s.disk.files == base
    ensures var r := ApplyScene(s, faults);
      && (r.plan.status == Applied ==> forall p :: Lookup(r.disk.files, p) == Proposed(s.plan.files, base, p))
      && (r.plan.status == AllRejected ==> r.disk.files == base)
      && (r.plan.status == RolledBack ==> (r.disk.files == base <==> !Tears(s, faults, base)))
      && r.plan.status != AwaitingReview
  {
    ApplyOutcome(s, faults, base, {});
    var r := ApplyScene(s, faults);
    forall p
      ensures Lookup(Written(base, AcceptedFiles(s.plan.files)), p) == Proposed(s.plan.files, base, p)
    {
      WrittenIsProposed(s.plan.files, base, p);
    }
    hide Proposed;
    if r.plan.status == RolledBack && !Tears(s, faults, base) {
      forall p
        ensures Lookup(r.disk.files, p) == Lookup(base, p)
      {
        if p in TornPath(s, faults) {
          assert TornPath(s, faults) == {p};
        }
      }
      SameLookups(r.disk.files, base);
    }
    hide ApplyScene, Written, AcceptedFiles, Succeeding, TornContent;
  }

  /**
   Path by path, for such an apply: unless a restore failed, a path holds either its last accepted
   content or what it held when the plan was made, and which of the two it is, is the same for all
   paths but a torn one.
   */
  lemma PathAfterApply(s: Scene, faults: Faults, base: map<string, string>, p: string)
    requires Tracks(s, base, {}) && s.disk.files == base
    ensures var r := ApplyScene(s, faults);
      r.plan.status != Failed ==>
        Lookup(r.disk.files, p) ==
          if r.plan.status == Applied then Proposed(s.plan.files, base, p)
          else if r.plan.status == RolledBack && p in TornPath(s, faults) then TornContent(s, faults)
          else Lookup(base, p)
  {
    ApplyOutcome(s, faults, base, {});
    WrittenIsProposed(s.plan.files, base, p);
    hide ApplyScene, Written, AcceptedFiles, Succeeding, TornPath, TornContent, Proposed;
  }

  /**
   An apply works through the accepted entries in the order of the plan, up to the first operation
   that fails: their paths are noted in that order, and what fails is on record at its own entry.
   */
  lemma ApplyFollowsPlan(s: Scene, faults: Faults, base: map<string, string>, torn: set<string>)
    requires Tracks(s, base, torn)
    ensures var r, paths := ApplyScene(s, faults), AcceptedPaths(s.plan.files);
      var k := Succeeding(faults, s.disk.calls, |paths|);
      && r.plan.appliedPaths == s.plan.appliedPaths + paths[..k]
      && (r.plan.status == AllRejected <==> paths == [])
      && (r.plan.status == Applied <==> paths != [] && k == |paths|)
      && (k < |paths| ==>
            && s.plan.errors + [EditError(paths[k], faults(s.disk.calls + k).value.message)] <= r.plan.errors
            && TornPath(s, faults) <= {paths[k]})
  {
    hide ApplyScene, AcceptedFiles, AcceptedPaths, Tracks, NoFaults, CleanExcept, RestoreErrors, Lookup, Written, Succeeding,
      TornPath, Paths;
    var todo, paths := AcceptedFiles(s.plan.files), AcceptedPaths(s.plan.files);
    var k := Succeeding(faults, s.disk.calls, |paths|);
    AcceptedPathsAre(s.plan.files);
    PathsUpTo(todo, k);
    ApplyOutcome(s, faults, base, torn);
    if k < |paths| {
      TornIsFailing(s, faults);
    }
  }

  lemma PathsUpTo(todo: seq<FileEditPlan>, k: nat)
    requires k <= |todo|
    ensures |Paths(todo)| == |todo| && Paths(todo[..k]) == Paths(todo)[..k]
    ensures k < |todo| ==> todo[k].path == Paths(todo)[k]
  {
  }

  lemma TornIsFailing(s: Scene, faults: Faults)
    requires Succeeding(faults, s.disk.calls, |AcceptedFiles(s.plan.files)|) < |AcceptedFiles(s.plan.files)|
    ensures var todo := AcceptedFiles(s.plan.files);
      TornPath(s, faults) <= {todo[Succeeding(faults, s.disk.calls, |todo|)].path}
  {
    hide AcceptedFiles, Succeeding;
  }

  /** When nothing fails each path has the content of the last accepted entry for it. */
  lemma AppliedIsProposed(s: Scene, faults: Faults, base: map<string, string>, torn: set<string>, p: string)
    requires Tracks(s, base, torn) && ApplyScene(s, faults).plan.status == Applied
    ensures Lookup(ApplyScene(s, faults).disk.files, p) == Proposed(s.plan.files, s.disk.files, p)
  {
    hide ApplyScene, AcceptedFiles, Tracks, Lookup, Written, Proposed, TornPath, Succeeding, NoFaults, RestoreErrors;
    ApplyOutcome(s, faults, base, torn);
    WrittenIsProposed(s.plan.files, s.disk.files, p);
  }

  /** Whatever fails, an apply leaves alone every path that is neither accepted now nor applied before. */
  lemma UnacceptedUntouched(s: Scene, faults: Faults, base: map<string, string>, torn: set<string>, p: string)
    requires Tracks(s, base, torn) && p !in s.plan.appliedPaths
    requires forall f :: f in s.plan.files && f.decision == Accepted ==> f.path != p
    ensures Lookup(ApplyScene(s, faults).disk.files, p) == Lookup(s.disk.files, p)
  {
    hide RestoreFrom, Remembers, Planned, AcceptedFiles, RestoreErrors, CleanExcept, NoFaults, Written;
    var todo := AcceptedFiles(s.plan.files);
    AcceptedAreFiles(s.plan.files);
    assert forall i :: 0 <= i < |todo| ==> todo[i] in todo && todo[i].path != p;
    if todo != [] {
      ApplyStops(s, faults, todo);
      var k := Succeeding(faults, s.disk.calls, |todo|);
      WrittenLookup(s.disk.files, todo[..k], p);
      NotProposed(todo[..k], p);
      assert p !in Paths(todo[..k]);
      if k < |todo| {
        HaltedStaysClean(s, faults, k, base, torn);
        RollbackOutcome(Halted(s, faults, todo, k), faults, base, torn + TornPath(s, faults));
      } else {
        assert todo[..k] == todo;
      }
    }
  }

  // ----- whole runs

  datatype Action = Decide(path: string, decision: EditDecision) | DecideAll(decision: EditDecision) | Apply | Rollback

  function DecideFile(files: seq<FileEditPlan>, i: nat, decision: EditDecision): seq<FileEditPlan>
    requires i < |files|
  {
    files[i := files[i].(decision := decision)]
  }

  function DecideFiles(files: seq<FileEditPlan>, decision: EditDecision): seq<FileEditPlan> {
    seq(|files|, i requires 0 <= i < |files| => files[i].(decision := decision))
  }

  // An action on a plan; deciding on a path the plan does not have is refused.
  function Act(s: Scene, faults: Faults, a: Action): Scene {
    match a
    case Decide(path, decision) =>
      (match FindFile(s.plan.files, path)
       case None => s
       case Some(i) => s.(plan := s.plan.(files := DecideFile(s.plan.files, i, decision))))
    case DecideAll(decision) => s.(plan := s.plan.(files := DecideFiles(s.plan.files, decision)))
    case Apply => ApplyScene(s, faults)
    case Rollback => RollbackScene(s, faults)
  }

  function Exec(s: Scene, faults: Faults, actions: seq<Action>): Scene
    decreases |actions|
  {
    if actions == [] then s else Exec(Act(s, faults, actions[0]), faults, actions[1..])
  }

  lemma {:induction false} SamePathsFound(files: seq<FileEditPlan>, files': seq<FileEditPlan>, path: string)
    requires |files| == |files'| && forall i :: 0 <= i < |files| ==> files[i].path == files'[i].path
    ensures FindFile(files, path) == FindFile(files', path)
  {
    if files != [] {
      SamePathsFound(files[1..], files'[1..], path);
    }
  }

  lemma DecisionsKeepTracks(s: Scene, files: seq<FileEditPlan>, base: map<string, string>, torn: set<string>)
    requires Tracks(s, base, torn) && |files| == |s.plan.files|
    requires forall i :: 0 <= i < |files| ==>
      files[i].path == s.plan.files[i].path && files[i].originalContent == s.plan.files[i].originalContent
    ensures Tracks(s.(plan := s.plan.(files := files)), base, torn)
  {
    forall p | p in s.plan.appliedPaths
      ensures FindFile(files, p).Some?
    {
      SamePathsFound(s.plan.files, files, p);
    }
    forall f | f in files
      ensures f.originalContent == Lookup(base, f.path)
    {
      var i :| 0 <= i < |files| && files[i] == f;
      assert s.plan.files[i] in s.plan.files;
    }
  }

  // The paths that the applies of a run tear.
  function TornPaths(s: Scene, faults: Faults, actions: seq<Action>): set<string>
    decreases |actions|
  {
    if actions == [] then {} else
      (if actions[0] == Apply then TornPath(s, faults) else {})
      + TornPaths(Act(s, faults, actions[0]), faults, actions[1..])
  }

  /**
   Over any run of decisions, applies and rollbacks, with any pattern of failing operations: only
   planned and applied paths, and torn ones, ever differ from the disk at planning time, and
   whenever the plan is marked rolled back the torn ones alone.
   */
  lemma {:induction false} RunsTrack(s: Scene, faults: Faults, actions: seq<Action>, base: map<string, string>, torn: set<string>)
    requires Tracks(s, base, torn)
    ensures Tracks(Exec(s, faults, actions), base, torn + TornPaths(s, faults, actions))
    decreases |actions|
  {
    if actions == [] {
      assert torn + {} == torn;
    } else {
      var next := Act(s, faults, actions[0]);
      var more := torn + if actions[0] == Apply then TornPath(s, faults) else {};
      assert actions[0] != Apply ==> more == torn;
      match actions[0] {
        case Decide(path, decision) =>
          if FindFile(s.plan.files, path).Some? {
            DecisionsKeepTracks(s, next.plan.files, base, torn);
          }
        case DecideAll(decision) => DecisionsKeepTracks(s, next.plan.files, base, torn);
        case Apply => ApplyOutcome(s, faults, base, torn);
        case Rollback => RollbackOutcome(s, faults, base, torn);
      }
      hide Tracks, TornPath, Act;
      RunsTrack(next, faults, actions[1..], base, more);
      assert more + TornPaths(next, faults, actions[1..]) == torn + TornPaths(s, faults, actions);
    }
  }

  /** After a full apply a rollback in which nothing fails restores the disk of planning time. */
  lemma RollbackUndoesApply(s: Scene, faults: Faults, base: map<string, string>)
    requires Tracks(s, base, {}) && ApplyScene(s, faults).plan.status == Applied
    requires var r := ApplyScene(s, faults); NoFaults(faults, r.disk.calls, |r.plan.appliedPaths|)
    ensures RollbackScene(ApplyScene(s, faults), faults).plan.status == RolledBack
    ensures RollbackScene(ApplyScene(s, faults), faults).disk.files == base
  {
    ApplyOutcome(s, faults, base, {});
    NothingTorn(s, faults);
    hide ApplyScene, RollbackScene, TornPath, Succeeding, Written, AcceptedFiles;
    RollbackOutcome(ApplyScene(s, faults), faults, base, {});
    SameLookups(RollbackScene(ApplyScene(s, faults), faults).disk.files, base);
  }

  /** A write that fails half way leaves its file behind, though the plan is marked rolled back. */
  lemma TornWriteStays()
    ensures exists s: Scene, faults: Faults, base: map<string, string> ::
      && Tracks(s, base, {}) && s.disk.files == base
      && ApplyScene(s, faults).plan.status == RolledBack && ApplyScene(s, faults).disk.files != base
  {
    var f := FileEditPlan("a", Modify, Some("old"), Some("new"), [], 0, 0, Accepted);
    var base := map["a" := "old"];
    var s := Scene(PlanData([f], AwaitingReview, [], []), Disk(base, 0));
    var faults: Faults := (n: nat) => if n == 0 then Some(Fault("disk full", Some(Some("")))) else None;
    assert [f][1..] == [] && AcceptedFiles([f]) == [f];
    var r := ApplyScene(s, faults);
    assert Lookup(r.disk.files, "a") == Some("");
    assert Lookup(base, "a") == Some("old");
    assert Tracks(s, base, {});
  }

  // ----- the planner object

  // A reviewable plan: the caller and the planner share one object.
  class AtomicEditPlan {
    var files: seq<FileEditPlan>
    var status: PlanStatus
    var appliedPaths: seq<string>
    var errors: seq<EditError>

    constructor (files: seq<FileEditPlan>)
      ensures Data() == PlanData(files, AwaitingReview, [], [])
    {
      this.files := files;
      status := AwaitingReview;
      appliedPaths := [];
      errors := [];
    }

    function Data(): PlanData
      reads this
    {
      PlanData(files, status, appliedPaths, errors)
    }
  }

  // How one proposed change is planned, given what the disk holds.
  ghost predicate PlansChange(f: FileEditPlan, change: ProposedFileChange, files: map<string, string>) {
    var original := Lookup(files, change.path);
    && f.path == change.path && f.originalContent == original && f.newContent == change.newContent
    && (f.kind == Create <==> change.path !in files)
    && (f.kind == Delete <==> change.path in files && change.newContent == None)
    && IsDiff(f.hunks, original.GetOr(""), change.newContent.GetOr(""))
    && f.added == Total(f.hunks, Add) && f.removed == Total(f.hunks, Remove)
    && f.decision == Pending
  }

  // A freshly made plan satisfies the invariant that the run lemmas start from.
  lemma FreshPlanTracks(files: seq<FileEditPlan>, changes: seq<ProposedFileChange>, disk: Disk)
    requires |files| == |changes| && forall i :: 0 <= i < |files| ==> PlansChange(files[i], changes[i], disk.files)
    ensures Tracks(Scene(PlanData(files, AwaitingReview, [], []), disk), disk.files, {})
  {
  }

  class AtomicEditPlanner {
    const fs: EditFileSystem
    var plans: map<string, AtomicEditPlan>

    constructor (fs: EditFileSystem)
      ensures this.fs == fs && plans == map[]
    {
      this.fs := fs;
      plans := map[];
    }

    // Reads, classifies and diffs one change.
    method PlanFile(change: ProposedFileChange) returns (r: Result<FileEditPlan, string>)
      ensures r.Ok? <==> fs.readFaults(change.path) == None
      ensures r.Ok? ==> PlansChange(r.value, change, fs.disk.files)
    {
      var read := fs.ReadFile(change.path);
      if read.Err? {
        return Err(read.error);
      }
      var original := read.value;
      var kind := if original == None then Create else if change.newContent == None then Delete else Modify;
      var hunks;
      if change.newContent == None {
        hunks := DiffLines(original.GetOr(""), "");
      } else {
        hunks := DiffLines(original.GetOr(""), change.newContent.value);
      }
      return Ok(FileEditPlan(change.path, kind, original, change.newContent, hunks,
                             Total(hunks, Add), Total(hunks, Remove), Pending));
    }

    /** Reads and diffs every change before anything is written. The id comes from a random source. */
    method Plan(changes: seq<ProposedFileChange>, id: string) returns (r: Result<AtomicEditPlan, string>)
      modifies this
      ensures fs.disk == old(fs.disk)
      ensures r.Ok? <==> forall i :: 0 <= i < |changes| ==> fs.readFaults(changes[i].path) == None
      ensures r.Err? ==> plans == old(plans)
      ensures r.Ok? ==> fresh(r.value) && plans == old(plans)[id := r.value]
      ensures r.Ok? ==>
        && r.value.status == AwaitingReview && r.value.appliedPaths == [] && r.value.errors == []
        && |r.value.files| == |changes|
        && forall i :: 0 <= i < |changes| ==> PlansChange(r.value.files[i], changes[i], fs.disk.files)
    {
      hide PlansChange;
      var files: seq<FileEditPlan> := [];
      for n := 0 to |changes|
        invariant |files| == n && plans == old(plans)
        invariant forall i :: 0 <= i < n ==> fs.readFaults(changes[i].path) == None
        invariant forall i :: 0 <= i < n ==> PlansChange(files[i], changes[i], fs.disk.files)
      {
        var file := PlanFile(changes[n]);
        if file.Err? {
          return Err(file.error);
        }
        files := files + [file.value];
      }
      var plan := new AtomicEditPlan(files);
      plans := plans[id := plan];
      return Ok(plan);
    }

    /** Accepts or rejects the first file of a plan with this path. */
    method SetDecision(planId: string, path: string, decision: EditDecision) returns (ok: bool)
      modifies if planId in plans then {plans[planId]} else {}
      ensures plans == old(plans)
      ensures ok <==> planId in plans && FindFile(old(plans[planId].files), path).Some?
      ensures planId in plans ==>
        Scene(plans[planId].Data(), fs.disk) ==
          Act(old(Scene(plans[planId].Data(), fs.disk)), fs.faults, Decide(path, decision))
      ensures planId in plans ==>
        var files, files' := old(plans[planId].files), plans[planId].files;
        && |files'| == |files|
        && forall n :: 0 <= n < |files| ==>
             files'[n] == if files[n].path == path && forall m :: 0 <= m < n ==> files[m].path != path
                          then files[n].(decision := decision) else files[n]
    {
      if planId !in plans {
        return false;
      }
      var plan := plans[planId];
      var i := FindFile(plan.files, path);
      if i.None? {
        return false;
      }
      plan.files := plan.files[i.value := plan.files[i.value].(decision := decision)];
      return true;
    }

    method SetAll(planId: string, decision: EditDecision) returns (ok: bool)
      modifies if planId in plans then {plans[planId]} else {}
      ensures plans == old(plans)
      ensures ok <==> planId in plans
      ensures ok ==>
        Scene(plans[planId].Data(), fs.disk) ==
          Act(old(Scene(plans[planId].Data(), fs.disk)), fs.faults, DecideAll(decision))
      ensures ok ==>
        var files, files' := old(plans[planId].files), plans[planId].files;
        |files'| == |files| && forall n :: 0 <= n < |files| ==> files'[n] == files[n].(decision := decision)
    {
      if planId !in plans {
        return false;
      }
      var plan := plans[planId];
      plan.files := DecideFiles(plan.files, decision);
      return true;
    }

    /** Restores every applied path in reverse order. */
    method Rollback(planId: string) returns (ok: bool)
      modifies if planId in plans then {plans[planId] as object, fs} else {}
      ensures plans == old(plans)
      ensures ok <==> planId in plans
      ensures ok ==>
        Scene(plans[planId].Data(), fs.disk) == RollbackScene(old(Scene(plans[planId].Data(), fs.disk)), fs.faults)
    {
      if planId !in plans {
        return false;
      }
      var plan := plans[planId];
      var paths := plan.appliedPaths;
      var failed := false;
      var n := |paths|;
      ghost var goal := RollbackScene(Scene(plan.Data(), fs.disk), fs.faults);
      assert paths[..n] == paths;
      while n > 0
        invariant n <= |paths| && plans == old(plans)
        invariant goal == RestoreFrom(Scene(plan.Data(), fs.disk), fs.faults, paths[..n], failed)
      {
        var path := paths[n - 1];
        assert paths[..n][..n - 1] == paths[..n - 1];
        var i := FindFile(plan.files, path);
        if i.Some? {
          var file := plan.files[i.value];
          var error;
          if file.originalContent == None {
            error := fs.DeleteFile(file.path);
          } else {
            error := fs.WriteFile(file.path, file.originalContent.value);
          }
          if error.Some? {
            failed := true;
            plan.errors := plan.errors + [EditError(file.path, ROLLBACK_FAILED + error.value)];
          }
        }
        n := n - 1;
      }
      plan.status := if failed then Failed else RolledBack;
      return true;
    }

    /** Applies the accepted files in order; a failure rolls back everything applied so far. */
    method Apply(planId: string) returns (ok: bool)
      modifies if planId in plans then {plans[planId] as object, fs} else {}
      ensures plans == old(plans)
      ensures ok <==> planId in plans
      ensures ok ==>
        Scene(plans[planId].Data(), fs.disk) == ApplyScene(old(Scene(plans[planId].Data(), fs.disk)), fs.faults)
    {
      if planId !in plans {
        return false;
      }
      var plan := plans[planId];
      var accepted := AcceptedFiles(plan.files);
      if |accepted| == 0 {
        plan.status := AllRejected;
        return true;
      }
      ghost var goal := ApplyScene(Scene(plan.Data(), fs.disk), fs.faults);
      assert accepted[0..] == accepted;
      for n := 0 to |accepted|
        invariant plans == old(plans)
        invariant goal == ApplyFrom(Scene(plan.Data(), fs.disk), fs.faults, accepted[n..])
      {
        var file := accepted[n];
        assert accepted[n..][0] == file && accepted[n..][1..] == accepted[n + 1..];
        var error;
        if file.newContent == None {
          error := fs.DeleteFile(file.path);
        } else {
          error := fs.WriteFile(file.path, file.newContent.value);
        }
        if error.None? {
          plan.appliedPaths := plan.appliedPaths + [file.path];
        } else {
          plan.errors := plan.errors + [EditError(file.path, error.value)];
          var _ := Rollback(planId);
          return true;
        }
      }
      plan.status := Applied;
      return true;
    }
  }
}
