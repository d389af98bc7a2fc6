/**
 The installer's output directory (packages/plugin-installer/src/cli.ts:705-728, 836-967, 1550-1708): four
 generated files that are replaced one by one, made atomic by a journal that holds the state before.

 Every file operation happens at once, throws without effect, or is the last thing the process does; a
 process that dies may have done it or not.
 */
module OutputJournal {
  import opened Results

  datatype File = ComposeOverlay | HelmValues | LifecyclePlanFile | StateFile | Journal

  datatype Content<S> = Rendered(text: string) | Stored(state: S)

  datatype Fault = Done | Throws | CrashBefore | CrashAfter

  datatype Status = Completed | Threw | Crashed

  const SNAPSHOT: set<File> := {ComposeOverlay, HelmValues, LifecyclePlanFile, StateFile}

  /** The three renderings of a state and the parser that reads one back. */
  datatype Formats<!S> = Formats(compose: S -> string, helm: S -> string, plan: S -> string, accepts: S -> bool, empty: S)
  {
    function ContentOf(file: File, s: S): Content<S>
    {
      match file
      case ComposeOverlay => Rendered(compose(s))
      case HelmValues => Rendered(helm(s))
      case LifecyclePlanFile => Rendered(plan(s))
      case _ => Stored(s)
    }

    /** The four files are the complete rendering of one state. */
    ghost predicate Holds(files: map<File, Content<S>>, s: S)
    {
      forall f :: f in SNAPSHOT ==> f in files && files[f] == ContentOf(f, s)
    }

    function StateOf(files: map<File, Content<S>>): S
    {
      if StateFile in files && files[StateFile].Stored? then files[StateFile].state else empty
    }

    /** No journal, and nothing written yet or one state written completely. */
    ghost predicate Settled(files: map<File, Content<S>>)
    {
      Journal !in files && (files.Keys !! SNAPSHOT || Holds(files, StateOf(files)))
    }

    ghost predicate Sound(files: map<File, Content<S>>)
    {
      if Journal in files then files[Journal].Stored? else Settled(files)
    }

    /** The state the directory stands for: that of the journal while there is one. */
    function Committed(files: map<File, Content<S>>): S
    {
      if Journal in files && files[Journal].Stored? then files[Journal].state else StateOf(files)
    }

    /** Removing the journal settles the directory if the four files are complete. */
    lemma RemovingTheJournalSettles(files: map<File, Content<S>>, s: S)
      requires Holds(files, s)
      ensures Settled(files - {Journal}) && Holds(files - {Journal}, s) && Committed(files - {Journal}) == s
    {
      assert files[StateFile] == ContentOf(StateFile, s);
    }

    lemma JournalDecides(files: map<File, Content<S>>, s: S)
      ensures Sound(files[Journal := Stored(s)]) && Committed(files[Journal := Stored(s)]) == s
    {
    }
  }

  class OutputDirectory<S(==)> {
    const formats: Formats<S>
    const faults: nat -> Fault
    var operations: nat
    var files: map<File, Content<S>>

    constructor (formats: Formats<S>, faults: nat -> Fault)
      ensures this.formats == formats && this.faults == faults && files == map[] && formats.Sound(files)
      ensures formats.Committed(files) == formats.empty
    {
      this.formats, this.faults, operations, files := formats, faults, 0, map[];
    }

    // ---------------------------------------------------------------- what went wrong

    /** Some operation of those numbered from `first` up to `next` threw. */
    ghost predicate SomeThrew(first: nat, next: nat)
    {
      exists n :: first <= n < next && faults(n) == Throws
    }

    /** The process died at one of these operations. */
    ghost predicate Died(first: nat, next: nat)
    {
      exists n :: first <= n < next && (faults(n) == CrashBefore || faults(n) == CrashAfter)
    }

    ghost predicate AllDone(first: nat, next: nat)
    {
      forall n :: first <= n < next ==> faults(n) == Done
    }

    /** A call completes exactly when all its operations do, dies exactly when one of them is its last, and throws otherwise. */
    ghost predicate Outcome(st: Status, first: nat, next: nat)
    {
      && first <= next
      && (st == Completed <==> AllDone(first, next))
      && (st == Crashed <==> Died(first, next))
      && (st == Threw <==> SomeThrew(first, next) && !Died(first, next))
    }

    /** What a call made of one operation answers. */
    static function StatusOf(f: Fault): Status
    {
      match f
      case Done => Completed
      case Throws => Threw
      case _ => Crashed
    }

    /** Only one operation went wrong, and it threw. */
    ghost predicate ThrewOnce(first: nat, next: nat)
    {
      exists n :: first <= n < next && faults(n) == Throws && AllDone(first, n) && AllDone(n + 1, next)
    }

    lemma NothingYet(first: nat)
      ensures AllDone(first, first)
    {
    }

    /** The operations up to here are done, and one more decides how the call ends, if it ends there. */
    lemma OneMore(first: nat, n: nat)
      requires first <= n && AllDone(first, n)
      ensures Outcome(StatusOf(faults(n)), first, n + 1)
      ensures StatusOf(faults(n)) == Threw ==> ThrewOnce(first, n + 1)
      ensures StatusOf(faults(n)) == Completed ==> AllDone(first, n + 1)
    {
    }

    /** What is done before a call leaves the call's own answer. */
    lemma DoneBefore(first: nat, n: nat, next: nat, st: Status)
      requires first <= n && AllDone(first, n) && Outcome(st, n, next)
      ensures Outcome(st, first, next)
    {
    }

    /** A call that threw, and the call that undoes it. */
    lemma ThenUndone(first: nat, n: nat, next: nat, undone: Status)
      requires Outcome(Threw, first, n) && Outcome(undone, n, next)
      ensures Outcome(if undone == Crashed then Crashed else Threw, first, next)
      ensures ThrewOnce(first, next) ==> undone == Completed
    {
    }

    lemma AnswersExclude(st: Status, first: nat, next: nat)
      requires Outcome(st, first, next) && st != Threw
      ensures !ThrewOnce(first, next)
    {
    }

    // ---------------------------------------------------------------- single operations

    method NextFault() returns (f: Fault)
      modifies this`operations
      ensures f == faults(old(operations)) && operations == old(operations) + 1
    {
      f := faults(operations);
      operations := operations + 1;
    }

    /** `atomicWrite` of one file. */
    method Put(file: File, s: S) returns (st: Status)
      modifies this
      ensures operations == old(operations) + 1 && st == StatusOf(faults(old(operations)))
      ensures file != Journal ==> JournalOf(files) == JournalOf(old(files))
      ensures st == Completed ==> files == old(files)[file := formats.ContentOf(file, s)]
      ensures st == Threw ==> files == old(files)
      ensures st == Crashed ==> files == old(files) || files == old(files)[file := formats.ContentOf(file, s)]
    {
      var f := NextFault();
      match f {
        case Throws => return Threw;
        case CrashBefore => return Crashed;
        case _ =>
          files := files[file := formats.ContentOf(file, s)];
          return if f == CrashAfter then Crashed else Completed;
      }
    }

    /** `unlink` of the journal. */
    method RemoveJournal() returns (st: Status)
      modifies this
      ensures operations == old(operations) + 1 && st == StatusOf(faults(old(operations)))
      ensures st == Completed ==> files == old(files) - {Journal}
      ensures st == Threw ==> files == old(files)
      ensures st == Crashed ==> files == old(files) || files == old(files) - {Journal}
    {
      var f := NextFault();
      match f {
        case Throws => return Threw;
        case CrashBefore => return Crashed;
        case _ =>
          files := files - {Journal};
          return if f == CrashAfter then Crashed else Completed;
      }
    }

    /** Work besides the four files: directories, key pair, deployment files, the observation. */
    method Aside() returns (st: Status)
      modifies this`operations
      ensures operations == old(operations) + 1 && st == StatusOf(faults(old(operations)))
    {
      var f := NextFault();
      return match f case Done => Completed case Throws => Threw case _ => Crashed;
    }

    static function JournalOf(files: map<File, Content<S>>): Option<Content<S>>
    {
      if Journal in files then Some(files[Journal]) else None
    }

    /** The four files as they are to be: three renderings of the state, and the state. */
    function Written(files: map<File, Content<S>>, s: S): map<File, Content<S>>
    {
      files[ComposeOverlay := Rendered(formats.compose(s))][HelmValues := Rendered(formats.helm(s))]
           [LifecyclePlanFile := Rendered(formats.plan(s))][StateFile := Stored(s)]
    }

    lemma WrittenOneByOne(files: map<File, Content<S>>, s: S)
      ensures Written(files, s) ==
                files[ComposeOverlay := formats.ContentOf(ComposeOverlay, s)][HelmValues := formats.ContentOf(HelmValues, s)]
                     [LifecyclePlanFile := formats.ContentOf(LifecyclePlanFile, s)][StateFile := formats.ContentOf(StateFile, s)]
      ensures formats.Holds(Written(files, s), s)
    {
    }

    /** `writeOutputSnapshot`: on completion all four files are those of `s`; the journal is not touched. */
    method WriteOutputSnapshot(s: S) returns (st: Status)
      modifies this
      ensures Outcome(st, old(operations), operations) && (st == Threw ==> ThrewOnce(old(operations), operations))
      ensures JournalOf(files) == JournalOf(old(files))
      ensures st == Completed ==> files == Written(old(files), s) && formats.Holds(files, s)
    {
      hide Outcome, AllDone, ThrewOnce, StatusOf, JournalOf, Written, Formats.Holds, Formats.ContentOf;
      ghost var first, before := operations, files;
      NothingYet(first);
      st := Aside();
      OneMore(first, operations - 1);
      if st != Completed { return; }
      st := Put(ComposeOverlay, s);
      OneMore(first, operations - 1);
      if st != Completed { return; }
      st := Put(HelmValues, s);
      OneMore(first, operations - 1);
      if st != Completed { return; }
      st := Put(LifecyclePlanFile, s);
      OneMore(first, operations - 1);
      if st != Completed { return; }
      st := Aside();
      OneMore(first, operations - 1);
      if st != Completed { return; }
      st := Put(StateFile, s);
      OneMore(first, operations - 1);
      WrittenOneByOne(before, s);
    }

    /** Write a complete snapshot and give the journal up for it. */
    method Conclude(s: S) returns (st: Status)
      requires Journal in files && files[Journal].Stored?
      modifies this
      ensures formats.Sound(files)
      ensures Outcome(st, old(operations), operations) && (st == Threw ==> ThrewOnce(old(operations), operations))
      ensures st == Completed ==> files == Written(old(files), s) - {Journal}
      ensures st == Completed ==> formats.Settled(files) && formats.Holds(files, s) && formats.Committed(files) == s
      ensures st == Threw ==> Journal in files && files[Journal] == old(files)[Journal]
      ensures st == Crashed ==> (Journal in files && files[Journal] == old(files)[Journal])
                                || (formats.Settled(files) && formats.Holds(files, s) && formats.Committed(files) == s)
    {
      st := WriteOutputSnapshot(s);
      if st == Completed {
        formats.RemovingTheJournalSettles(files, s);
        st := RemoveJournal();
      }
    }

    /**
     `recoverInterruptedOutputTransaction`: a journal whose state is accepted is made up for unless an operation
     fails, and any other is left for manual recovery.
     */
    method Recover() returns (st: Status)
      requires formats.Sound(files)
      modifies this
      ensures formats.Sound(files) && formats.Committed(files) == old(formats.Committed(files))
      ensures if Journal in old(files) && !formats.accepts(old(formats.Committed(files)))
              then st == Threw && files == old(files) && operations == old(operations)
              else Outcome(st, old(operations), operations)
      ensures st == Completed ==> formats.Settled(files)
      ensures st == Completed ==>
                files == if Journal in old(files) then Written(old(files), old(formats.Committed(files))) - {Journal} else old(files)
      ensures st == Completed && Journal in old(files) ==> formats.Holds(files, formats.Committed(files))
    {
      if Journal !in files {
        return Completed;
      }
      var before := files[Journal].state;
      if !formats.accepts(before) {
        return Threw;
      }
      st := Conclude(before);
    }

    /**
     `writeOutputs`: the new state completely, or the directory still stands for the previous one. It refuses
     while there is a journal; otherwise it succeeds unless an operation fails, and when just one throws, it
     has put everything back.
     */
    method WriteOutputs(next: S, previous: S) returns (st: Status)
      requires formats.Sound(files) && previous == formats.Committed(files)
      modifies this
      ensures formats.Sound(files)
      ensures if Journal in old(files) then st == Threw && files == old(files) && operations == old(operations)
              else Outcome(st, old(operations), operations)
      ensures st == Completed ==> files == Written(old(files), next) - {Journal}
      ensures st == Completed ==> formats.Settled(files) && formats.Holds(files, next) && formats.Committed(files) == next
      ensures st == Threw ==> formats.Committed(files) == previous
      ensures Journal !in old(files) && ThrewOnce(old(operations), operations) ==>
                formats.Settled(files) && (files == old(files) || formats.Holds(files, previous))
      ensures st == Crashed ==> formats.Committed(files) == previous
                                || (formats.Settled(files) && formats.Holds(files, next) && formats.Committed(files) == next)
    {
      if Journal in files {
        return Threw;
      }
      hide Outcome, AllDone, ThrewOnce, SomeThrew, Died, StatusOf, Written;
      ghost var first := operations;
      NothingYet(first);
      formats.JournalDecides(files, previous);
      st := Put(Journal, previous);
      OneMore(first, first);
      if st != Completed {
        if st == Crashed {
          AnswersExclude(st, first, operations);
        }
        return;
      }
      ghost var written := files;
      st := Conclude(next);
      DoneBefore(first, first + 1, operations, st);
      if st != Threw {
        AnswersExclude(st, first, operations);
        JournalIsGone(old(files), written, next, previous);
        return;
      }
      ghost var middle := operations;
      var undone := Conclude(previous);
      ThenUndone(first, middle, operations, undone);
      return if undone == Crashed then Crashed else Threw;
    }

    lemma JournalIsGone(files: map<File, Content<S>>, written: map<File, Content<S>>, next: S, previous: S)
      requires written == files[Journal := formats.ContentOf(Journal, previous)]
      ensures Written(written, next) - {Journal} == Written(files, next) - {Journal}
    {
    }

    /** There is something to write: the state loaded is accepted, and the command makes something of it. */
    predicate Gives(command: S -> Option<S>, state: S)
    {
      formats.accepts(state) && command(state).Some?
    }

    /** One invocation of the installer: recover, load, compute, write. */
    method Invoke(command: S -> Option<S>) returns (st: Status)
      requires formats.Sound(files)
      modifies this
      ensures formats.Sound(files)
      ensures formats.Committed(files) == old(formats.Committed(files))
              || command(old(formats.Committed(files))) == Some(formats.Committed(files))
      ensures st == Completed <==> Gives(command, old(formats.Committed(files))) && AllDone(old(operations), operations)
      ensures st == Crashed <==> Died(old(operations), operations)
      ensures st == Completed ==>
                formats.Settled(files) && command(old(formats.Committed(files))) == Some(formats.Committed(files))
                && formats.Holds(files, formats.Committed(files))
      ensures old(operations) <= operations
    {
      st := Recover();
      if st != Completed { return; }
      var state := formats.Committed(files);
      if !formats.accepts(state) || command(state).None? {
        return Threw;
      }
      st := WriteOutputs(command(state).value, state);
    }

    /**
     Any number of invocations, each of which may throw or die anywhere: the directory goes through the
     states in `trace`, one per invocation, each the one before or what the invocation's command makes of
     it, and what is on disk always stands for the last of them. An invocation completes exactly when its
     command gives a state and all of its operations, numbered from `starts[i]`, are done.
     */
    method InvokeAll(commands: seq<S -> Option<S>>) returns (ghost trace: seq<S>, completed: seq<bool>, ghost starts: seq<nat>)
      requires formats.Sound(files)
      modifies this
      ensures formats.Sound(files)
      ensures |trace| == |starts| == |commands| + 1 && |completed| == |commands|
      ensures trace[0] == old(formats.Committed(files)) && trace[|commands|] == formats.Committed(files)
      ensures starts[0] == old(operations) && starts[|commands|] == operations
      ensures forall i :: 0 <= i < |commands| ==> Follows(commands[i], completed[i], trace[i], trace[i + 1])
      ensures forall i :: 0 <= i < |commands| ==> CompletesExactly(commands[i], completed[i], trace[i], starts[i], starts[i + 1])
    {
      trace, completed, starts := [formats.Committed(files)], [], [operations];
      var n := 0;
      while n < |commands|
        invariant 0 <= n <= |commands| && formats.Sound(files)
        invariant |trace| == |starts| == n + 1 && |completed| == n
        invariant trace[0] == old(formats.Committed(files)) && trace[n] == formats.Committed(files)
        invariant starts[0] == old(operations) && starts[n] == operations
        invariant forall i :: 0 <= i < n ==> Follows(commands[i], completed[i], trace[i], trace[i + 1])
        invariant forall i :: 0 <= i < n ==> CompletesExactly(commands[i], completed[i], trace[i], starts[i], starts[i + 1])
      {
        var st := Invoke(commands[n]);
        trace := trace + [formats.Committed(files)];
        completed := completed + [st == Completed];
        starts := starts + [operations];
        n := n + 1;
      }
    }

    /** An invocation completes exactly when its command gives a state and none of its operations fails. */
    ghost predicate CompletesExactly(command: S -> Option<S>, completed: bool, before: S, first: nat, next: nat)
    {
      first <= next && (completed <==> Gives(command, before) && AllDone(first, next))
    }

    /** An invocation that reports success has taken effect; any other has done so completely or not at all. */
    static ghost predicate Follows(command: S -> Option<S>, completed: bool, before: S, after: S)
    {
      command(before) == Some(after) || (!completed && after == before)
    }
  }
}
