/**
 * What the duplicate scanner does with one duplicate file (mina.cs, ProcessDuplicateFile
 * and RenameFile, lines 107-191): a prompt loop over console lines that ends on Delete,
 * Skip or a successful Rename, and the checks a rename must pass. Console lines are a
 * sequence read from a cursor; after the last line every read yields null. The file
 * system's answers are given as functions of the file and the new name.
 */
module DuplicateActions {
  import opened Wrappers

  /**
   * What File.Move does: moves the file, fails with an IOException (which RenameFile
   * catches), or throws any other exception (such as UnauthorizedAccessException), which
   * no handler of the prompt catches.
   */
  datatype MoveOutcome = Moved | MoveIoError | MoveThrows

  /** What File.Delete does, with the same three kinds of ending. */
  datatype DeleteOutcome = Removed | DeleteIoError | DeleteThrows

  /**
   * What the file system answers: whether a file with the new name already exists next
   * to `path`, what moving `path` to that name does, and what deleting `path` does.
   */
  datatype Disk = Disk(
    targetExists: (string, string) -> bool,
    move: (string, string) -> MoveOutcome,
    delete: string -> DeleteOutcome)

  /** The action that ends the prompt for one file. */
  datatype Action = Deleted | Renamed(newName: string) | Skipped

  /**
   * How the prompt for one file ends: with an action and the cursor after the lines it
   * read; never, once the input is exhausted (every further read is null, which the
   * loop rejects as an invalid choice forever); or with an exception that escapes the
   * prompt and ends the scan.
   */
  datatype PromptOutcome = Done(action: Action, next: nat) | Hung | Escaped

  /** RenameFile's three endings: renamed, refused (it returns false), or an escaping exception. */
  datatype RenameResult = RenameDone | RenameRefused | RenameThrows

  /** Upper-case of one character, for the characters whose upper case can be D, R or S. */
  function UpperChar(c: char): (u: char)
    ensures 'a' <= c <= 'z' ==> u as int == c as int - 32
    ensures c == '\U{017F}' ==> u == 'S'
    ensures !('a' <= c <= 'z') && c != '\U{017F}' ==> u == c
  {
    if 'a' <= c <= 'z' then (c as int - 32) as char
    else if c == '\U{017F}' then 'S'
    else c
  }

  function Upper(s: string): (r: string)
    ensures |r| == |s| && forall k :: 0 <= k < |s| ==> r[k] == UpperChar(s[k])
  {
    seq(|s|, k requires 0 <= k < |s| => UpperChar(s[k]))
  }

  /** The choice a console line selects once upper-cased: exactly "D", "R" or "S". */
  predicate Chooses(line: string, choice: char)
  {
    Upper(line) == [choice]
  }

  /**
   * A line selects D or R exactly when it is that one letter in either case; it selects
   * S when it is "S", "s" or the long s.
   */
  lemma ChoosesOneLetter(line: string, choice: char)
    requires choice == 'D' || choice == 'R' || choice == 'S'
    ensures choice != 'S' ==> (Chooses(line, choice) <==> line == [choice] || line == [(choice as int + 32) as char])
    ensures choice == 'S' ==> (Chooses(line, choice) <==> line == "S" || line == "s" || line == "\U{017F}")
  {
    if Chooses(line, choice) {
      assert |line| == 1 && UpperChar(line[0]) == choice;
    }
    if |line| == 1 {
      assert Upper(line) == [UpperChar(line[0])];
    }
  }

  /** The characters .NET classes as white space (Char.IsWhiteSpace). */
  predicate IsWhiteSpace(c: char)
  {
    || '\t' <= c <= '\r'
    || c == ' '
    || c == '\U{0085}'
    || c == '\U{00A0}'
    || c == '\U{1680}'
    || '\U{2000}' <= c <= '\U{200A}'
    || c == '\U{2028}'
    || c == '\U{2029}'
    || c == '\U{202F}'
    || c == '\U{205F}'
    || c == '\U{3000}'
  }

  /** string.IsNullOrWhiteSpace, with null as None. */
  predicate IsNullOrWhiteSpace(s: Option<string>)
  {
    s.None? || forall k :: 0 <= k < |s.value| ==> IsWhiteSpace(s.value[k])
  }

  /**
   * RenameFile: a null or blank name and an existing target are refused before any
   * move; an IOException from the move is caught and refused too; every other exception
   * of the move escapes.
   */
  function RenameFile(path: string, newName: Option<string>, disk: Disk): (r: RenameResult)
    ensures IsNullOrWhiteSpace(newName) ==> r == RenameRefused
    ensures newName.Some? && disk.targetExists(path, newName.value) ==> r == RenameRefused
    ensures r == RenameDone <==>
      (newName.Some? && !IsNullOrWhiteSpace(newName)
       && !disk.targetExists(path, newName.value) && disk.move(path, newName.value) == Moved)
    ensures r == RenameThrows <==>
      (newName.Some? && !IsNullOrWhiteSpace(newName)
       && !disk.targetExists(path, newName.value) && disk.move(path, newName.value) == MoveThrows)
  {
    if IsNullOrWhiteSpace(newName) then RenameRefused
    else if disk.targetExists(path, newName.value) then RenameRefused
    else
      match disk.move(path, newName.value)
      case Moved => RenameDone
      case MoveIoError => RenameRefused
      case MoveThrows => RenameThrows
  }

  /** The line at the cursor, or null past the end. */
  function ReadLine(lines: seq<string>, pos: nat): Option<string>
  {
    if pos < |lines| then Some(lines[pos]) else None
  }

  /** The prompt loop for one file, from the console cursor `pos`. */
  function Prompt(path: string, lines: seq<string>, pos: nat, disk: Disk): (r: PromptOutcome)
    requires pos <= |lines|
    ensures r.Done? ==> pos < r.next <= |lines|
    decreases |lines| - pos
  {
    if pos == |lines| then Hung
    else if Chooses(lines[pos], 'D') then
      if disk.delete(path) == DeleteThrows then Escaped else Done(Deleted, pos + 1)
    else if Chooses(lines[pos], 'R') then
      var name := ReadLine(lines, pos + 1);
      var next := if pos + 1 < |lines| then pos + 2 else pos + 1;
      match RenameFile(path, name, disk)
      case RenameDone => Done(Renamed(name.value), next)
      case RenameThrows => Escaped
      case RenameRefused => Prompt(path, lines, next, disk)
    else if Chooses(lines[pos], 'S') then Done(Skipped, pos + 1)
    else Prompt(path, lines, pos + 1, disk)
  }

  /**
   * "D" ends the prompt after one line, whether the file was removed or an IOException
   * was reported, unless the delete throws an exception that escapes; "S" always ends it.
   */
  lemma DeleteOrSkipEndsAtOnce(path: string, lines: seq<string>, pos: nat, disk: Disk)
    requires pos < |lines|
    ensures Chooses(lines[pos], 'D') ==>
      Prompt(path, lines, pos, disk) == (if disk.delete(path) == DeleteThrows then Escaped else Done(Deleted, pos + 1))
    ensures Chooses(lines[pos], 'S') ==> Prompt(path, lines, pos, disk) == Done(Skipped, pos + 1)
  {
    if Chooses(lines[pos], 'S') {
      assert !Chooses(lines[pos], 'D') && !Chooses(lines[pos], 'R');
    }
  }

  /** Any other line is rejected and the prompt starts again at the next line. */
  lemma InvalidChoiceReprompts(path: string, lines: seq<string>, pos: nat, disk: Disk)
    requires pos < |lines|
    requires !Chooses(lines[pos], 'D') && !Chooses(lines[pos], 'R') && !Chooses(lines[pos], 'S')
    ensures Prompt(path, lines, pos, disk) == Prompt(path, lines, pos + 1, disk)
  {
  }

  /** "R" ends the prompt only with a successful rename to the next line's name. */
  lemma {:induction false} RenamedOnlyOnSuccess(path: string, lines: seq<string>, pos: nat, disk: Disk)
    requires pos <= |lines|
    requires Prompt(path, lines, pos, disk).Done? && Prompt(path, lines, pos, disk).action.Renamed?
    ensures RenameFile(path, Some(Prompt(path, lines, pos, disk).action.newName), disk) == RenameDone
    decreases |lines| - pos
  {
    if !Chooses(lines[pos], 'D') && !Chooses(lines[pos], 'S') {
      if !Chooses(lines[pos], 'R') {
        RenamedOnlyOnSuccess(path, lines, pos + 1, disk);
      } else if RenameFile(path, ReadLine(lines, pos + 1), disk) == RenameRefused {
        RenamedOnlyOnSuccess(path, lines, if pos + 1 < |lines| then pos + 2 else pos + 1, disk);
      }
    }
  }

  /** A successful rename ends the prompt on the line after the name. */
  lemma RenameEndsAfterName(path: string, lines: seq<string>, pos: nat, disk: Disk)
    requires pos + 1 < |lines| && Chooses(lines[pos], 'R')
    requires RenameFile(path, Some(lines[pos + 1]), disk) == RenameDone
    ensures Prompt(path, lines, pos, disk) == Done(Renamed(lines[pos + 1]), pos + 2)
  {
    assert !Chooses(lines[pos], 'D') by {
      assert Upper(lines[pos])[0] == 'R';
    }
  }

  /** A rename whose move throws other than an IOException lets the exception escape. */
  lemma RenameThrowsEscapes(path: string, lines: seq<string>, pos: nat, disk: Disk)
    requires pos + 1 < |lines| && Chooses(lines[pos], 'R')
    requires RenameFile(path, Some(lines[pos + 1]), disk) == RenameThrows
    ensures Prompt(path, lines, pos, disk) == Escaped
  {
    assert !Chooses(lines[pos], 'D') by {
      assert Upper(lines[pos])[0] == 'R';
    }
  }

  /**
   * A refused rename (blank name, taken target, or an IOException from the move) sends
   * the prompt back for a new choice after the name line.
   */
  lemma RefusedRenameReprompts(path: string, lines: seq<string>, pos: nat, disk: Disk)
    requires pos + 1 < |lines| && Chooses(lines[pos], 'R')
    requires || IsNullOrWhiteSpace(Some(lines[pos + 1]))
             || disk.targetExists(path, lines[pos + 1])
             || disk.move(path, lines[pos + 1]) == MoveIoError
    ensures Prompt(path, lines, pos, disk) == Prompt(path, lines, pos + 2, disk)
  {
    assert !Chooses(lines[pos], 'D') by {
      assert Upper(lines[pos])[0] == 'R';
    }
  }

  /** The line at `k` chooses an action whose file operation throws an escaping exception. */
  predicate ThrowsAt(path: string, lines: seq<string>, k: nat, disk: Disk)
  {
    && k < |lines|
    && ((Chooses(lines[k], 'D') && disk.delete(path) == DeleteThrows)
        || (Chooses(lines[k], 'R') && RenameFile(path, ReadLine(lines, k + 1), disk) == RenameThrows))
  }

  /** The prompt ends in an exception only when a chosen delete or move threw it. */
  lemma {:induction false} EscapesOnlyFromFileAction(path: string, lines: seq<string>, pos: nat, disk: Disk)
    requires pos <= |lines|
    requires Prompt(path, lines, pos, disk).Escaped?
    ensures exists k: nat :: pos <= k && ThrowsAt(path, lines, k, disk)
    decreases |lines| - pos
  {
    if Chooses(lines[pos], 'D') {
      assert ThrowsAt(path, lines, pos, disk);
    } else if Chooses(lines[pos], 'R') {
      var res := RenameFile(path, ReadLine(lines, pos + 1), disk);
      if res == RenameThrows {
        assert ThrowsAt(path, lines, pos, disk);
      } else {
        EscapesOnlyFromFileAction(path, lines, if pos + 1 < |lines| then pos + 2 else pos + 1, disk);
      }
    } else if !Chooses(lines[pos], 'S') {
      EscapesOnlyFromFileAction(path, lines, pos + 1, disk);
    }
  }

  /** With no line left the prompt cannot end: null is an invalid choice forever. */
  lemma ExhaustedInputHangs(path: string, lines: seq<string>, disk: Disk)
    ensures Prompt(path, lines, |lines|, disk) == Hung
  {
  }

  /** The prompt loop as the source runs it: read a choice, act on it, or ask again. */
  method ProcessDuplicateFile(path: string, lines: seq<string>, pos: nat, disk: Disk) returns (outcome: PromptOutcome)
    requires pos <= |lines|
    ensures outcome == Prompt(path, lines, pos, disk)
  {
    var cursor := pos;
    while cursor < |lines|
      invariant pos <= cursor <= |lines|
      invariant Prompt(path, lines, cursor, disk) == Prompt(path, lines, pos, disk)
      decreases |lines| - cursor
    {
      var choice := Upper(lines[cursor]);
      cursor := cursor + 1;
      if choice == "D" {
        if disk.delete(path) == DeleteThrows {
          return Escaped;
        }
        return Done(Deleted, cursor);
      } else if choice == "R" {
        var name := ReadLine(lines, cursor);
        if cursor < |lines| {
          cursor := cursor + 1;
        }
        var result := RenameFile(path, name, disk);
        if result == RenameDone {
          return Done(Renamed(name.value), cursor);
        } else if result == RenameThrows {
          return Escaped;
        }
      } else if choice == "S" {
        return Done(Skipped, cursor);
      }
    }
    return Hung;
  }
}
