/** The upload control (components/MenuUploader.tsx): a file selection
    shows the file's name, moves the cosmetic progress display to
    "uploading", and schedules two timers; the first moves the display to
    "processing", the second to "complete" and hands the file to the page.

    Time is a millisecond clock that only the event loop moves: `Wait` lets
    time pass while no timer is due, and `FireTimer` runs the timer the
    event loop picks next. */
module MenuUploader {
  import opened Js

  // ---------------------------------------------------------------------
  // The progress display
  // ---------------------------------------------------------------------

  datatype UploadState = Idle | Uploading | Processing | Complete

  const UPLOAD_STATES_IN_ORDER: seq<UploadState> := [Idle, Uploading, Processing, Complete]

  datatype Stage = Stage(caption: string, progress: nat)

  /** The `progressStages` record. */
  function ProgressStage(s: UploadState): Stage {
    match s
    case Idle => Stage("Ready to scan", 0)
    case Uploading => Stage("Uploading menu photo", 35)
    case Processing => Stage("Analyzing dishes with PlatePal AI", 72)
    case Complete => Stage("Translations ready", 100)
  }

  /** The bar advances with the states: it starts empty, strictly grows
      from each state to the next (0, 35, 72, 100), ends full, and no two
      stages share a label. */
  lemma ProgressStagesAdvance()
    ensures forall s :: s in UPLOAD_STATES_IN_ORDER
    ensures ProgressStage(Idle).progress == 0 && ProgressStage(Uploading).progress == 35
    ensures ProgressStage(Processing).progress == 72 && ProgressStage(Complete).progress == 100
    ensures ProgressStage(UPLOAD_STATES_IN_ORDER[0]).progress == 0
    ensures ProgressStage(UPLOAD_STATES_IN_ORDER[|UPLOAD_STATES_IN_ORDER| - 1]).progress == 100
    ensures forall i, j :: 0 <= i < j < |UPLOAD_STATES_IN_ORDER| ==>
              ProgressStage(UPLOAD_STATES_IN_ORDER[i]).progress < ProgressStage(UPLOAD_STATES_IN_ORDER[j]).progress
    ensures forall s :: ProgressStage(s).progress <= 100
    ensures forall s, t :: ProgressStage(s).caption == ProgressStage(t).caption ==> s == t
  {
    forall s: UploadState ensures s in UPLOAD_STATES_IN_ORDER {
      match s
      case Idle => assert UPLOAD_STATES_IN_ORDER[0] == s;
      case Uploading => assert UPLOAD_STATES_IN_ORDER[1] == s;
      case Processing => assert UPLOAD_STATES_IN_ORDER[2] == s;
      case Complete => assert UPLOAD_STATES_IN_ORDER[3] == s;
    }
    forall s: UploadState, t: UploadState | ProgressStage(s).caption == ProgressStage(t).caption ensures s == t {
      assert |ProgressStage(s).caption| == |ProgressStage(t).caption|;
    }
  }

  /** What the status panel shows: the percentage (which is also the bar's
      width), the stage label, and the "Selected file" line, present
      exactly when a file name has been recorded. */
  datatype Status = Status(percent: nat, caption: string, selectedFile: Option<string>)

  function StatusOf(state: UploadState, fileName: string): (v: Status)
    ensures v.percent == ProgressStage(state).progress && v.caption == ProgressStage(state).caption
    ensures v.selectedFile.Some? <==> fileName != ""
    ensures v.selectedFile.Some? ==> v.selectedFile.value == fileName
  {
    Status(ProgressStage(state).progress, ProgressStage(state).caption,
           if fileName != "" then Some(fileName) else None)
  }

  // ---------------------------------------------------------------------
  // The timers
  // ---------------------------------------------------------------------

  /** Milliseconds from a selection to its two timers. */
  const PROCESSING_DELAY: nat := 900
  const COMPLETE_DELAY: nat := 2200

  /** What a timer's callback does: move the display to "processing", or
      move it to "complete" and call `onProcess` with the selected file. */
  datatype Action = EnterProcessing | CompleteWith(file: File)

  datatype Timer = Timer(due: nat, action: Action)

  /** The file a timer will hand to `onProcess`, if it is a completing
      one. */
  function OwnCall(t: Timer): seq<File> {
    if t.action.CompleteWith? then [t.action.file] else []
  }

  /** The files the pending timers will still hand to `onProcess`, in
      scheduling order. */
  function PendingFiles(timers: seq<Timer>): seq<File> {
    if timers == [] then [] else OwnCall(timers[0]) + PendingFiles(timers[1..])
  }

  lemma {:induction false} PendingFilesAppend(a: seq<Timer>, b: seq<Timer>)
    ensures PendingFiles(a + b) == PendingFiles(a) + PendingFiles(b)
  {
    if a == [] {
      assert a + b == b;
    } else {
      assert (a + b)[0] == a[0];
      assert (a + b)[1..] == a[1..] + b;
      PendingFilesAppend(a[1..], b);
    }
  }

  lemma PendingFilesCons(t: Timer, rest: seq<Timer>)
    ensures PendingFiles([t] + rest) == OwnCall(t) + PendingFiles(rest)
  {
    assert ([t] + rest)[0] == t;
    assert ([t] + rest)[1..] == rest;
  }

  /** Timers that complete nothing hand nothing over. */
  lemma {:induction false} PendingFilesNone(timers: seq<Timer>)
    requires forall i :: 0 <= i < |timers| ==> timers[i].action == EnterProcessing
    ensures PendingFiles(timers) == []
  {
    if timers != [] {
      PendingFilesNone(timers[1..]);
    }
  }

  /** Removing the k-th timer removes its own file, if it has one, and
      keeps the others in order. */
  lemma {:induction false} PendingFilesRemove(timers: seq<Timer>, k: nat)
    requires k < |timers|
    ensures PendingFiles(timers) == PendingFiles(timers[..k]) + OwnCall(timers[k]) + PendingFiles(timers[k + 1..])
    ensures PendingFiles(timers[..k] + timers[k + 1..]) == PendingFiles(timers[..k]) + PendingFiles(timers[k + 1..])
  {
    var before, t, after := timers[..k], timers[k], timers[k + 1..];
    assert timers == before + ([t] + after);
    PendingFilesAppend(before, [t] + after);
    PendingFilesCons(t, after);
    PendingFilesAppend(before, after);
  }

  /** The timer the event loop runs next: one of those due soonest, and
      of those the one scheduled first. */
  predicate IsNext(timers: seq<Timer>, k: nat) {
    && k < |timers|
    && (forall j :: 0 <= j < |timers| ==> timers[k].due <= timers[j].due)
    && (forall j :: 0 <= j < k ==> timers[j].due != timers[k].due)
  }

  /** Completing timers are due in the order they were scheduled. */
  predicate CompletesInOrder(timers: seq<Timer>) {
    forall i, j :: 0 <= i < j < |timers| && timers[i].action.CompleteWith? && timers[j].action.CompleteWith? ==>
      timers[i].due <= timers[j].due
  }

  /** When the timer that runs next is a completing one, it holds the first
      of the pending files. */
  lemma NextCompletionIsFirstPending(timers: seq<Timer>, k: nat)
    requires IsNext(timers, k) && CompletesInOrder(timers) && timers[k].action.CompleteWith?
    ensures PendingFiles(timers) == [timers[k].action.file] + PendingFiles(timers[..k] + timers[k + 1..])
  {
    forall i | 0 <= i < k ensures timers[..k][i].action == EnterProcessing {
      assert timers[k].due <= timers[i].due && timers[i].due != timers[k].due;
    }
    PendingFilesNone(timers[..k]);
    PendingFilesRemove(timers, k);
  }

  /** The uploader's invariant on its values: no timer is overdue; a
      completing timer is due at most 2200 ms from now, and completing
      timers are due in scheduling order; and the files handed over so far
      followed by those still pending are exactly the selected files, so
      every selection hands over its own file, once, and in order. */
  predicate Consistent(now: nat, timers: seq<Timer>, processed: seq<File>, selected: seq<File>) {
    && (forall i :: 0 <= i < |timers| ==> now <= timers[i].due)
    && (forall i :: 0 <= i < |timers| && timers[i].action.CompleteWith? ==> timers[i].due <= now + COMPLETE_DELAY)
    && CompletesInOrder(timers)
    && processed + PendingFiles(timers) == selected
  }

  /** Scheduling the two timers of a selection keeps the invariant, with
      the selection's file added at the end. */
  lemma SchedulingKeepsConsistent(now: nat, timers: seq<Timer>, processed: seq<File>, selected: seq<File>, file: File)
    requires Consistent(now, timers, processed, selected)
    ensures Consistent(now, timers + [Timer(now + PROCESSING_DELAY, EnterProcessing), Timer(now + COMPLETE_DELAY, CompleteWith(file))],
                       processed, selected + [file])
  {
    SchedulingKeepsTiming(now, timers, file);
    SchedulingKeepsFiles(now, timers, processed, selected, file);
  }

  /** The new timers are not overdue, the completing one is due exactly
      2200 ms from now, and it is due no earlier than any other completion. */
  lemma SchedulingKeepsTiming(now: nat, timers: seq<Timer>, file: File)
    requires forall i :: 0 <= i < |timers| ==> now <= timers[i].due
    requires forall i :: 0 <= i < |timers| && timers[i].action.CompleteWith? ==> timers[i].due <= now + COMPLETE_DELAY
    requires CompletesInOrder(timers)
    ensures var all := timers + [Timer(now + PROCESSING_DELAY, EnterProcessing), Timer(now + COMPLETE_DELAY, CompleteWith(file))];
            && (forall i :: 0 <= i < |all| ==> now <= all[i].due)
            && (forall i :: 0 <= i < |all| && all[i].action.CompleteWith? ==> all[i].due <= now + COMPLETE_DELAY)
            && CompletesInOrder(all)
  {
    var added := [Timer(now + PROCESSING_DELAY, EnterProcessing), Timer(now + COMPLETE_DELAY, CompleteWith(file))];
    var all := timers + added;
    assert forall i :: 0 <= i < |timers| ==> all[i] == timers[i];
    assert all[|timers|] == added[0] && all[|timers| + 1] == added[1];
    forall i, j | 0 <= i < j < |all| && all[i].action.CompleteWith? && all[j].action.CompleteWith?
      ensures all[i].due <= all[j].due
    {
      if j < |timers| {
        assert all[i] == timers[i] && all[j] == timers[j];
      } else if i < |timers| {
        assert all[i] == timers[i];
      }
    }
  }

  /** The new completing timer adds the selection's file after every other
      pending file. */
  lemma SchedulingKeepsFiles(now: nat, timers: seq<Timer>, processed: seq<File>, selected: seq<File>, file: File)
    requires processed + PendingFiles(timers) == selected
    ensures processed + PendingFiles(timers + [Timer(now + PROCESSING_DELAY, EnterProcessing),
                                               Timer(now + COMPLETE_DELAY, CompleteWith(file))]) == selected + [file]
  {
    var added := [Timer(now + PROCESSING_DELAY, EnterProcessing), Timer(now + COMPLETE_DELAY, CompleteWith(file))];
    PendingFilesAppend(timers, added);
    assert PendingFiles(added) == [file] by {
      PendingFilesCons(added[0], added[1..]);
      PendingFilesCons(added[1], []);
      assert added[1..] == [added[1]] + [];
    }
  }

  /** Running the timer that comes next keeps the invariant: the clock moves
      to its due time, it leaves the list, and a completing one hands over
      the first file still pending. */
  lemma FiringKeepsConsistent(now: nat, timers: seq<Timer>, processed: seq<File>, selected: seq<File>, k: nat)
    requires Consistent(now, timers, processed, selected) && IsNext(timers, k)
    ensures Consistent(timers[k].due, timers[..k] + timers[k + 1..], processed + OwnCall(timers[k]), selected)
    ensures timers[k].action.CompleteWith? ==>
              |processed| < |selected| && timers[k].action.file == selected[|processed|]
  {
    FiringKeepsTiming(now, timers, k);
    FiringKeepsFiles(timers, processed, selected, k);
  }

  lemma {:induction false} FiringKeepsTiming(now: nat, timers: seq<Timer>, k: nat)
    requires IsNext(timers, k) && CompletesInOrder(timers)
    requires forall i :: 0 <= i < |timers| && timers[i].action.CompleteWith? ==> timers[i].due <= now + COMPLETE_DELAY
    requires now <= timers[k].due
    ensures var rest := timers[..k] + timers[k + 1..];
            && (forall i :: 0 <= i < |rest| ==> timers[k].due <= rest[i].due)
            && (forall i :: 0 <= i < |rest| && rest[i].action.CompleteWith? ==> rest[i].due <= timers[k].due + COMPLETE_DELAY)
            && CompletesInOrder(rest)
  {
    var rest := timers[..k] + timers[k + 1..];
    assert forall i :: 0 <= i < |rest| ==> rest[i] == timers[if i < k then i else i + 1];
  }

  lemma {:induction false} FiringKeepsFiles(timers: seq<Timer>, processed: seq<File>, selected: seq<File>, k: nat)
    requires IsNext(timers, k) && CompletesInOrder(timers)
    requires processed + PendingFiles(timers) == selected
    ensures processed + OwnCall(timers[k]) + PendingFiles(timers[..k] + timers[k + 1..]) == selected
    ensures timers[k].action.CompleteWith? ==>
              |processed| < |selected| && timers[k].action.file == selected[|processed|]
  {
    var rest := PendingFiles(timers[..k] + timers[k + 1..]);
    if timers[k].action.CompleteWith? {
      NextCompletionIsFirstPending(timers, k);
      HandOverFirst(processed, timers[k].action.file, rest);
    } else {
      PendingFilesRemove(timers, k);
      assert OwnCall(timers[k]) == [];
      assert processed + [] == processed;
    }
  }

  /** Handing over the head of the pending files moves it to the end of
      those handed over. */
  lemma HandOverFirst(processed: seq<File>, file: File, rest: seq<File>)
    ensures processed + [file] + rest == processed + ([file] + rest)
    ensures (processed + ([file] + rest))[|processed|] == file
  {
  }

  class Uploader {
    /** The event loop's clock, in milliseconds. */
    var now: nat
    var fileName: string
    var state: UploadState
    /** The scheduled timers that have not fired, in scheduling order. */
    var timers: seq<Timer>
    /** The files handed to `onProcess`, in order. */
    var processed: seq<File>
    /** The files of the selections that held one, in order. */
    var selected: seq<File>

    predicate Valid()
      reads this
    {
      Consistent(now, timers, processed, selected)
    }

    /** What the status panel shows for the current stage and file name. */
    function View(): (v: Status)
      reads this
      ensures v.percent == ProgressStage(state).progress && v.caption == ProgressStage(state).caption
      ensures v.selectedFile.Some? <==> fileName != ""
      ensures v.selectedFile.Some? ==> v.selectedFile.value == fileName
    {
      StatusOf(state, fileName)
    }

    constructor(now: nat)
      ensures Valid()
      ensures this.now == now && fileName == "" && state == Idle
      ensures timers == [] && processed == [] && selected == []
    {
      this.now := now;
      fileName := "";
      state := Idle;
      timers := [];
      processed := [];
      selected := [];
    }

    /** The input's change event with the selected `files`: nothing for an
        empty selection; otherwise the first file's name is shown, the
        display moves to "uploading", and both timers are scheduled from
        now. */
    method HandleFileSelect(files: seq<File>)
      requires Valid()
      modifies this`fileName, this`state, this`timers, this`selected
      ensures Valid()
      ensures |files| == 0 ==>
                fileName == old(fileName) && state == old(state) && timers == old(timers) && selected == old(selected)
      ensures |files| > 0 ==>
                && fileName == files[0].name && state == Uploading && selected == old(selected) + [files[0]]
                && timers == old(timers) + [Timer(now + PROCESSING_DELAY, EnterProcessing),
                                            Timer(now + COMPLETE_DELAY, CompleteWith(files[0]))]
    {
      if |files| == 0 {
        return;
      }
      var file := files[0];
      fileName := file.name;
      state := Uploading;
      SchedulingKeepsConsistent(now, timers, processed, selected, file);
      timers := timers + [Timer(now + PROCESSING_DELAY, EnterProcessing), Timer(now + COMPLETE_DELAY, CompleteWith(file))];
      selected := selected + [file];
    }

    /** Time passes while no timer is due. */
    method Wait(ms: nat)
      requires Valid()
      requires forall i :: 0 <= i < |timers| ==> now + ms <= timers[i].due
      modifies this`now
      ensures Valid() && now == old(now) + ms
    {
      now := now + ms;
    }

    /** The event loop runs the k-th timer: the clock reaches its due time,
        the timer is gone, and its callback has run. A completing timer
        hands over the next selected file not yet handed over. */
    method FireTimer(k: nat)
      requires Valid() && IsNext(timers, k)
      modifies this`now, this`state, this`timers, this`processed
      ensures Valid()
      ensures now == old(timers[k].due)
      ensures timers == old(timers[..k] + timers[k + 1..])
      ensures old(timers[k].action) == EnterProcessing ==> state == Processing && processed == old(processed)
      ensures old(timers[k].action).CompleteWith? ==>
                && state == Complete && processed == old(processed) + [old(timers[k].action.file)]
                && |old(processed)| < |selected| && old(timers[k].action.file) == selected[|old(processed)|]
    {
      var t := timers[k];
      FiringKeepsConsistent(now, timers, processed, selected, k);
      now := t.due;
      timers := timers[..k] + timers[k + 1..];
      match t.action
      case EnterProcessing =>
        state := Processing;
      case CompleteWith(file) =>
        state := Complete;
        processed := processed + [file];
    }
  }

  /** A selection with nothing else pending: 900 ms later the display
      shows "processing", nothing has been handed over yet, and only the
      completing timer of this selection is left. */
  method SelectAndReachProcessing(u: Uploader, file: File)
    requires u.Valid() && u.timers == []
    modifies u
    ensures u.Valid()
    ensures u.now == old(u.now) + PROCESSING_DELAY
    ensures u.fileName == file.name && u.state == Processing
    ensures u.processed == old(u.processed) && u.selected == old(u.selected) + [file]
    ensures u.timers == [Timer(old(u.now) + COMPLETE_DELAY, CompleteWith(file))]
  {
    u.HandleFileSelect([file]);
    assert IsNext(u.timers, 0);
    u.FireTimer(0);
  }

  /** ... and 2200 ms after the selection the file has been handed to the
      page, exactly once. */
  method SelectAndWait(u: Uploader, file: File)
    requires u.Valid() && u.timers == []
    modifies u
    ensures u.Valid() && u.timers == []
    ensures u.now == old(u.now) + COMPLETE_DELAY
    ensures u.fileName == file.name && u.state == Complete
    ensures u.processed == old(u.processed) + [file]
  {
    SelectAndReachProcessing(u, file);
    u.FireTimer(0);
  }

  /** Nothing stops a second selection while the first one's timers are
      pending: two selections at the same instant hand both files to the
      page, in order, and the name shown is the second one's. */
  method SelectTwice(u: Uploader, first: File, second: File)
    requires u.Valid() && u.timers == []
    modifies u
    ensures u.Valid() && u.timers == []
    ensures u.fileName == second.name && u.state == Complete
    ensures u.processed == old(u.processed) + [first, second]
  {
    var n := u.now;
    u.HandleFileSelect([first]);
    u.HandleFileSelect([second]);
    var p := Timer(n + PROCESSING_DELAY, EnterProcessing);
    var c1 := Timer(n + COMPLETE_DELAY, CompleteWith(first));
    var c2 := Timer(n + COMPLETE_DELAY, CompleteWith(second));
    assert u.timers == [p, c1, p, c2];
    FireBothProcessingTimers(u, p, c1, c2);
    FireBothCompleteTimers(u, first, second);
  }

  /** The two 900 ms timers of simultaneous selections fire first. */
  method FireBothProcessingTimers(u: Uploader, p: Timer, c1: Timer, c2: Timer)
    requires u.Valid() && u.timers == [p, c1, p, c2]
    requires p.action == EnterProcessing && p.due < c1.due && c1.due == c2.due
    modifies u`now, u`state, u`timers, u`processed
    ensures u.Valid() && u.timers == [c1, c2] && u.processed == old(u.processed)
  {
    assert IsNext(u.timers, 0);
    u.FireTimer(0);
    assert IsNext(u.timers, 1);
    u.FireTimer(1);
  }

  /** Then their 2200 ms timers fire, in the order they were scheduled. */
  method FireBothCompleteTimers(u: Uploader, first: File, second: File)
    requires u.Valid() && |u.timers| == 2
    requires u.timers[0].due == u.timers[1].due
    requires u.timers[0].action == CompleteWith(first) && u.timers[1].action == CompleteWith(second)
    modifies u`now, u`state, u`timers, u`processed
    ensures u.Valid() && u.timers == [] && u.state == Complete
    ensures u.processed == old(u.processed) + [first, second]
  {
    var last := u.timers[1];
    ghost var before := u.processed;
    assert IsNext(u.timers, 0);
    u.FireTimer(0);
    assert u.timers == [last] && u.processed == before + [first];
    assert IsNext(u.timers, 0);
    u.FireTimer(0);
    assert u.processed == before + [first] + [second];
  }
}
