// Informational messages: the IMessageWriter a settings object may name, the
// notices the engine and the file-storage stages emit, and the once-per-process
// flags that keep each tip from being shown twice.
//
// A writer is modelled as the sequence of notices it has received; the text
// each notice stands for is given by Text.

module Messages {

  /** The messages the library emits, each with what it names. */
  datatype Notice =
    | MissingSnapshotWarning(path: string)
    | RerunTip
    | SnapshotWritten(path: string)
    | MismatchWritten(path: string)
    | MismatchReviewTip
    /** The engine's tip after writing a snapshot file. */
    | RefreshedReviewTip
    /** The writing stage's tip after writing a snapshot file. */
    | NewFileReviewTip

  /** The name of the environment variable that turns on creation of missing snapshots. */
  const CreateMissingSnapshotsVariable: string := "SNAPTEST_CREATE_MISSING_SNAPSHOTS"

  /** The name of the environment variable that forces every snapshot to be refreshed. */
  const RefreshSnapshotsVariable: string := "SNAPTEST_REFRESH"

  /** The text written for each notice. */
  function Text(n: Notice): string
  {
    match n
    case MissingSnapshotWarning(path) => "WARNING: Test result snapshot file does not exist: " + path
    case RerunTip =>
      "===> Tip: Tests can be run with the following environment variable set to automatically create missing snapshot files based on actual results: "
      + CreateMissingSnapshotsVariable + "=yes"
    case SnapshotWritten(path) => "Created or refreshed snapshot file at " + path
    case MismatchWritten(path) => "Created snapshot actual mismatched output file at " + path
    case MismatchReviewTip => "===> Tip: Review the content of mismatched output files to and use them to update snapshot files as appropriate."
    case RefreshedReviewTip => "===> Tip: Review the content of created and refreshed snapshot files to ensure they reflect expected output."
    case NewFileReviewTip => "===> Tip: Review the content of newly created snapshot files to ensure they reflect expected output."
  }

  /**
   * An IMessageWriter: it receives every message in order. A settings object
   * or context without one (a null writer, or the base context whose Message
   * does nothing) discards them.
   */
  class MessageLog {
    var lines: seq<Notice>

    constructor ()
      ensures lines == []
    {
      lines := [];
    }

    method Write(message: Notice)
      modifies this
      ensures lines == old(lines) + [message]
    {
      lines := lines + [message];
    }
  }

  /** The notices a writer holds after `message` is emitted: unchanged when there is no writer. */
  function Emit(lines: seq<Notice>, hasWriter: bool, message: Notice): (r: seq<Notice>)
    ensures hasWriter ==> r == lines + [message]
    ensures !hasWriter ==> r == lines
  {
    if hasWriter then lines + [message] else lines
  }

  /** Emitting through a null writer, or through one that exists. */
  method Message(writer: MessageLog?, message: Notice)
    modifies writer
    ensures writer != null ==> writer.lines == Emit(old(writer.lines), true, message)
  {
    if writer != null {
      writer.Write(message);
    }
  }

  /** The once-per-process tip flags of one class (its `static bool shown...Tip` fields). */
  class TipFlags {
    var shownRerunTip: bool
    var shownMismatchReviewTip: bool
    var shownNewFileReviewTip: bool

    /** Process start: no tip shown yet. */
    constructor ()
      ensures !shownRerunTip && !shownMismatchReviewTip && !shownNewFileReviewTip
    {
      shownRerunTip, shownMismatchReviewTip, shownNewFileReviewTip := false, false, false;
    }

    function State(): Tips
      reads this
    {
      Tips(shownRerunTip, shownMismatchReviewTip, shownNewFileReviewTip)
    }
  }

  datatype Tips = Tips(rerun: bool, mismatch: bool, newFile: bool)

  /** Which of the three flags guards a tip. */
  datatype Flag = RerunFlag | MismatchFlag | NewFileFlag

  function Shown(t: Tips, f: Flag): bool
  {
    match f
    case RerunFlag => t.rerun
    case MismatchFlag => t.mismatch
    case NewFileFlag => t.newFile
  }

  /** The flags once `f` is raised: that flag set, the others as they were. */
  function Raised(t: Tips, f: Flag): (r: Tips)
    ensures Shown(r, f) && forall g :: g != f ==> Shown(r, g) == Shown(t, g)
  {
    match f
    case RerunFlag => t.(rerun := true)
    case MismatchFlag => t.(mismatch := true)
    case NewFileFlag => t.(newFile := true)
  }

  /**
   * A message, then its tip if the tip's flag is still down; the flag is up
   * afterwards: the `Message(...); if (!shown) { shown = true; Message(tip); }`
   * pattern of the engine and of the file-storage stages.
   */
  method Announce(writer: MessageLog?, tips: TipFlags, message: Notice, flag: Flag, tip: Notice)
    modifies writer, tips
    ensures tips.State() == Raised(old(tips.State()), flag)
    ensures writer != null ==> writer.lines == WithTip(old(writer.lines), true, message, Shown(old(tips.State()), flag), tip).0
  {
    Message(writer, message);
    var shown := match flag
      case RerunFlag => tips.shownRerunTip
      case MismatchFlag => tips.shownMismatchReviewTip
      case NewFileFlag => tips.shownNewFileReviewTip;
    if !shown {
      match flag {
        case RerunFlag => tips.shownRerunTip := true;
        case MismatchFlag => tips.shownMismatchReviewTip := true;
        case NewFileFlag => tips.shownNewFileReviewTip := true;
      }
      Message(writer, tip);
    }
  }

  /** A message, followed by its tip when that tip has not been shown: the new notices and flag. */
  function WithTip(lines: seq<Notice>, hasWriter: bool, message: Notice, shown: bool, tip: Notice): (r: (seq<Notice>, bool))
    ensures r.1
    ensures hasWriter && !shown ==> r.0 == lines + [message, tip]
    ensures hasWriter && shown ==> r.0 == lines + [message]
    ensures !hasWriter ==> r.0 == lines
  {
    var afterMessage := Emit(lines, hasWriter, message);
    if shown then (afterMessage, true)
    else
      assert hasWriter ==> afterMessage + [tip] == lines + [message, tip];
      (Emit(afterMessage, hasWriter, tip), true)
  }

  /** However often a message is emitted, its tip follows it only while the flag is down: at most once from any state. */
  lemma {:induction false} TipShownOnce(lines: seq<Notice>, message: Notice, tip: Notice, shown: bool, k: nat)
    requires message != tip
    ensures var r := Repeated(lines, message, shown, tip, k);
      multiset(r.0)[tip] == multiset(lines)[tip] + (if !shown && k > 0 then 1 else 0)
    ensures k > 0 ==> Repeated(lines, message, shown, tip, k).1
  {
    if k > 0 {
      TipShownOnce(lines, message, tip, shown, k - 1);
      var before := Repeated(lines, message, shown, tip, k - 1);
      var after := WithTip(before.0, true, message, before.1, tip);
      if before.1 {
        assert after.0 == before.0 + [message];
      } else {
        assert after.0 == before.0 + [message, tip];
      }
    }
  }

  /** The notices and flag after the same message with its tip has been emitted `k` times to a writer. */
  function Repeated(lines: seq<Notice>, message: Notice, shown: bool, tip: Notice, k: nat): (seq<Notice>, bool)
    decreases k
  {
    if k == 0 then (lines, shown)
    else
      var before := Repeated(lines, message, shown, tip, k - 1);
      WithTip(before.0, true, message, before.1, tip)
  }
}
