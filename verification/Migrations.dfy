/**
 The migration runner (backend/cmd/migrate/main.go) as a restartable program: a run walks over the
 sorted files and stops at the first fatal error; the database survives from run to run. Reading and
 writing the schema_migrations table is taken to succeed unless the process dies before the write.
 */
module Migrations {
  import opened Counting

  /** hypertable: the text contains create_hypertable, so errors of its statements are only printed. */
  datatype File = File(name: string, hypertable: bool)

  /**
   What happens when a file that is not recorded yet is reached: it cannot be read; its SQL fails;
   the process dies after its SQL and before the record is written; or all goes well.
   */
  datatype Outcome = ReadFails | SqlFails | Dies | Succeeds

  /** applied is schema_migrations; executed and died log the files of the runs so far. */
  datatype Store = Store(applied: seq<string>, executed: seq<string>, died: seq<string>)

  const EMPTY := Store([], [], [])

  /** The store after one file, and whether the run goes on. */
  function Step(s: Store, f: File, o: Outcome): (Store, bool) {
    if f.name in s.applied then (s, true)
    else
      match o
      case ReadFails => (s, false)
      case SqlFails =>
        if f.hypertable then (s.(applied := s.applied + [f.name]), true) else (s, false)
      case Dies => (s.(executed := s.executed + [f.name], died := s.died + [f.name]), false)
      case Succeeds => (s.(applied := s.applied + [f.name], executed := s.executed + [f.name]), true)
  }

  /** One run over all files; false when it ended in a fatal error or died. */
  function Run(s: Store, files: seq<File>, env: seq<Outcome>): (Store, bool)
    requires |env| == |files|
    decreases |files|
  {
    if files == [] then (s, true)
    else
      var (next, more) := Step(s, files[0], env[0]);
      if more then Run(next, files[1..], env[1..]) else (next, false)
  }

  class Database {
    var applied: seq<string>
    var executed: seq<string>
    var died: seq<string>

    function Value(): Store
      reads this
    {
      Store(applied, executed, died)
    }

    constructor ()
      ensures Value() == EMPTY
    {
      applied, executed, died := [], [], [];
    }

    /** The loop of the program; returning false stands for log.Fatal or a crash. */
    method Migrate(files: seq<File>, env: seq<Outcome>) returns (completed: bool)
      requires |env| == |files|
      modifies this
      ensures (Value(), completed) == Run(old(Value()), files, env)
    {
      var n := 0;
      while n < |files|
        invariant 0 <= n <= |files|
        invariant Run(Value(), files[n..], env[n..]) == Run(old(Value()), files, env)
      {
        var name, outcome := files[n].name, env[n];
        assert files[n..][1..] == files[n + 1..] && env[n..][1..] == env[n + 1..];
        var recorded := name in applied;
        n := n + 1;
        if recorded {
          continue;
        }
        if outcome.ReadFails? {
          return false;
        }
        if !files[n - 1].hypertable && outcome.SqlFails? {
          return false;
        }
        if !outcome.SqlFails? {
          executed := executed + [name];
        }
        if outcome.Dies? {
          died := died + [name];
          return false;
        }
        applied := applied + [name];
      }
      return true;
    }
  }

  ghost predicate Fits(files: seq<File>, envs: seq<seq<Outcome>>) {
    forall env | env in envs :: |env| == |files|
  }

  /** Any number of runs over the same files, complete or not. */
  ghost function History(s: Store, files: seq<File>, envs: seq<seq<Outcome>>): Store
    requires Fits(files, envs)
    decreases |envs|
  {
    if envs == [] then s else History(Run(s, files, envs[0]).0, files, envs[1..])
  }

  function Names(files: seq<File>): (names: seq<string>)
    ensures |names| == |files| && forall i | 0 <= i < |files| :: names[i] == files[i].name
  {
    seq(|files|, i requires 0 <= i < |files| => files[i].name)
  }

  ghost predicate Distinct(files: seq<File>) {
    forall i, j | 0 <= i < j < |files| :: files[i].name != files[j].name
  }

  ghost function Is(name: string): string -> bool {
    (x: string) => x == name
  }

  /** Executions of a plain file: one per crash after its SQL, and one for being recorded. */
  ghost predicate Accounted(s: Store, f: File) {
    !f.hypertable ==>
      Count(s.executed, Is(f.name)) == Count(s.died, Is(f.name)) + if f.name in s.applied then 1 else 0
  }

  ghost predicate Inv(s: Store, files: seq<File>) {
    s.applied <= Names(files) && forall f | f in files :: Accounted(s, f)
  }

  lemma AccountedStep(s: Store, f: File, o: Outcome, g: File)
    requires Accounted(s, g) && (g.name == f.name ==> g == f)
    ensures Accounted(Step(s, f, o).0, g)
  {
    CountPush(s.executed, f.name, Is(g.name));
    CountPush(s.died, f.name, Is(g.name));
  }

  /** At file n of a run, everything before n is recorded. */
  lemma InvStep(s: Store, files: seq<File>, n: nat, o: Outcome)
    requires Distinct(files) && n < |files| && Inv(s, files) && n <= |s.applied|
    ensures var (next, more) := Step(s, files[n], o);
            Inv(next, files) && |s.applied| <= |next.applied| && (more ==> n + 1 <= |next.applied|)
  {
    var (next, more) := Step(s, files[n], o);
    if n < |s.applied| {
      assert s.applied[n] == files[n].name;
    } else {
      assert files[n].name !in s.applied by {
        assert forall i | 0 <= i < n :: s.applied[i] == files[i].name;
      }
    }
    forall g | g in files ensures Accounted(next, g) {
      var j :| 0 <= j < |files| && files[j] == g;
      AccountedStep(s, files[n], o, g);
    }
  }

  lemma {:induction false} InvRun(s: Store, files: seq<File>, n: nat, env: seq<Outcome>)
    requires Distinct(files) && n <= |files| && |env| == |files| - n
    requires Inv(s, files) && n <= |s.applied|
    ensures var (end, completed) := Run(s, files[n..], env);
            && Inv(end, files)
            && (completed ==> end.applied == Names(files))
    decreases |env|
  {
    if n < |files| {
      var (next, more) := Step(s, files[n], env[0]);
      InvStep(s, files, n, env[0]);
      assert files[n..][1..] == files[n + 1..];
      if more {
        InvRun(next, files, n + 1, env[1..]);
      }
    }
  }

  lemma {:induction false} InvHistory(s: Store, files: seq<File>, envs: seq<seq<Outcome>>)
    requires Distinct(files) && Inv(s, files)
    requires Fits(files, envs)
    ensures Inv(History(s, files, envs), files)
    decreases |envs|
  {
    if envs != [] {
      assert files[0..] == files;
      InvRun(s, files, 0, envs[0]);
      InvHistory(Run(s, files, envs[0]).0, files, envs[1..]);
    }
  }

  // ----- main results

  /** After any runs, complete or not, the recorded migrations are a prefix of the sorted files. */
  lemma AppliedIsAPrefix(files: seq<File>, envs: seq<seq<Outcome>>)
    requires Distinct(files) && Fits(files, envs)
    ensures History(EMPTY, files, envs).applied <= Names(files)
  {
    InvHistory(EMPTY, files, envs);
  }

  /** A run that completes has recorded every file. */
  lemma CompletedRunAppliesAll(files: seq<File>, envs: seq<seq<Outcome>>, env: seq<Outcome>)
    requires Distinct(files) && |env| == |files| && Fits(files, envs)
    requires Run(History(EMPTY, files, envs), files, env).1
    ensures Run(History(EMPTY, files, envs), files, env).0.applied == Names(files)
  {
    InvHistory(EMPTY, files, envs);
    assert files[0..] == files;
    InvRun(History(EMPTY, files, envs), files, 0, env);
  }

  /** Once everything is recorded, a run executes nothing and completes, whatever might go wrong. */
  lemma {:induction false} LaterRunsDoNothing(s: Store, files: seq<File>, env: seq<Outcome>)
    requires |env| == |files| && forall f | f in files :: f.name in s.applied
    ensures Run(s, files, env) == (s, true)
    decreases |files|
  {
    if files != [] {
      assert files[0] in files;
      LaterRunsDoNothing(s, files[1..], env[1..]);
    }
  }

  /**
   A file without create_hypertable executes successfully at most once, plus once per crash between
   its SQL and its record; and it is recorded only if it did execute.
   */
  lemma PlainFilesExecuteOnce(files: seq<File>, envs: seq<seq<Outcome>>, f: File)
    requires Distinct(files) && f in files && !f.hypertable
    requires Fits(files, envs)
    ensures var s := History(EMPTY, files, envs);
            && Count(s.executed, Is(f.name)) == Count(s.died, Is(f.name)) + (if f.name in s.applied then 1 else 0)
            && (f.name in s.applied ==> Count(s.executed, Is(f.name)) >= 1)
  {
    InvHistory(EMPTY, files, envs);
  }

  /** The SQL of f fails and everything else succeeds. */
  function FailsAt(files: seq<File>, f: File): (env: seq<Outcome>)
    ensures |env| == |files|
  {
    seq(|files|, i requires 0 <= i < |files| => if files[i] == f then SqlFails else Succeeds)
  }

  /** Such a run goes to the end without executing f. */
  lemma {:induction false} RunsPast(s: Store, files: seq<File>, n: nat, f: File)
    requires Distinct(files) && n <= |files| && f in files && f.hypertable && f.name !in s.executed
    ensures var (end, completed) := Run(s, files[n..], FailsAt(files, f)[n..]);
            completed && f.name !in end.executed
    decreases |files| - n
  {
    if n < |files| {
      var (next, more) := Step(s, files[n], FailsAt(files, f)[n]);
      assert files[n..][1..] == files[n + 1..] && FailsAt(files, f)[n..][1..] == FailsAt(files, f)[n + 1..];
      RunsPast(next, files, n + 1, f);
    }
  }

  lemma RecordedWithoutSuccess(files: seq<File>, f: File) returns (envs: seq<seq<Outcome>>)
    requires Distinct(files) && f in files && f.hypertable
    ensures Fits(files, envs)
    ensures f.name in History(EMPTY, files, envs).applied
    ensures Count(History(EMPTY, files, envs).executed, Is(f.name)) == 0
  {
    var env := FailsAt(files, f);
    envs := [env];
    assert files[0..] == files && env[0..] == env;
    RunsPast(EMPTY, files, 0, f);
    var end := Run(EMPTY, files, env).0;
    assert envs[1..] == [] && History(EMPTY, files, envs) == History(end, files, []) == end;
    CompletedRunAppliesAll(files, [], env);
    var i :| 0 <= i < |files| && files[i] == f;
    assert Names(files)[i] == f.name;
    CountNone(end.executed, Is(f.name));
  }

  /**
   In every history a recorded file has executed without error at least once, exactly when its text
   does not contain create_hypertable; this holds for every file of every list.
   */
  lemma RecordedMeansExecutedIff(files: seq<File>, f: File)
    requires Distinct(files) && f in files
    ensures (forall envs | Fits(files, envs) && f.name in History(EMPTY, files, envs).applied ::
               Count(History(EMPTY, files, envs).executed, Is(f.name)) >= 1)
       <==> !f.hypertable
  {
    if f.hypertable {
      var envs := RecordedWithoutSuccess(files, f);
    } else {
      forall envs | Fits(files, envs) && f.name in History(EMPTY, files, envs).applied
        ensures Count(History(EMPTY, files, envs).executed, Is(f.name)) >= 1
      {
        PlainFilesExecuteOnce(files, envs, f);
      }
    }
  }

  /** The extra execution per crash does happen: a crash before the record makes the next run execute the file again. */
  lemma CrashRepeatsTheFile(f: File)
    ensures History(EMPTY, [f], [[Dies], [Succeeds]]) == Store([f.name], [f.name, f.name], [f.name])
  {
    var envs: seq<seq<Outcome>> := [[Dies], [Succeeds]];
    var s1 := Store([], [f.name], [f.name]);
    var s2 := Store([f.name], [f.name, f.name], [f.name]);
    assert EMPTY.executed + [f.name] == [f.name] && [] + [f.name] == [f.name];
    assert [f.name] + [f.name] == [f.name, f.name];
    assert Step(EMPTY, f, Dies) == (s1, false) && Step(s1, f, Succeeds) == (s2, true);
    assert [f][1..] == [] && envs[0][1..] == [] && envs[1][1..] == [];
    assert Run(s2, [], []) == (s2, true) && Run(EMPTY, [f], envs[0]).0 == s1 && Run(s1, [f], envs[1]).0 == s2;
    assert envs[1..] == [envs[1]] && envs[1..][1..] == [];
    assert History(s2, [f], []) == s2 && History(s1, [f], envs[1..]) == s2;
  }
}
