/** Durable files with the contract of config.AtomicWriteFile: a write that
    reports an error has left the old file in place, and any call may fail. */
module FileSystem {
  import opened Text

  datatype Inspection<+F> = Missing | Unreadable | Found(file: F)

  datatype Removal = Removed | Absent | Stuck

  // ---------------------------------------------------------------------- frames

  ghost predicate SameAt<P, F>(before: map<P, F>, after: map<P, F>, p: P) {
    (p in before <==> p in after) && (p in before ==> after[p] == before[p])
  }

  ghost predicate SameBut<P, F>(before: map<P, F>, after: map<P, F>, paths: set<P>) { before - paths == after - paths }

  lemma SameButAt<P, F>(before: map<P, F>, after: map<P, F>, paths: set<P>, p: P)
    requires SameBut(before, after, paths) && p !in paths
    ensures SameAt(before, after, p)
  {
    assert p in before <==> p in before - paths;
    assert p in after <==> p in after - paths;
    assert p in before ==> (before - paths)[p] == before[p];
  }

  lemma SameButWider<P, F>(before: map<P, F>, after: map<P, F>, paths: set<P>, wider: set<P>)
    requires SameBut(before, after, paths) && paths <= wider
    ensures SameBut(before, after, wider)
  {
    assert before - wider == (before - paths) - wider;
    assert after - wider == (after - paths) - wider;
  }

  lemma SameButTransitive<P, F>(a: map<P, F>, b: map<P, F>, c: map<P, F>, paths: set<P>)
    requires SameBut(a, b, paths) && SameBut(b, c, paths)
    ensures SameBut(a, c, paths)
  {
  }

  // ------------------------------------------------------------------------ disk

  /** How a question to the outside is answered. */
  datatype Reply = Granted | Denied | Aborted | TooLarge

  datatype Answer<Q> = Answer(question: Q, reply: Reply)

  /** What the model does not decide: contexts, downloads, installers, probes,
      encoders, other processes.  `log` holds every answer given, oldest first. */
  class World<Q(!new)> {
    ghost var log: seq<Answer<Q>>

    constructor ()
      ensures log == []
    {
      log := [];
    }

    method Ask(question: Q) returns (reply: Reply)
      modifies this
      ensures log == old(log) + [Answer(question, reply)]
    {
      reply := *;
      log := log + [Answer(question, reply)];
    }
  }

  /** Everything asked in between was granted. */
  ghost predicate AllGranted<Q>(past: seq<Answer<Q>>, log: seq<Answer<Q>>) {
    past <= log && forall i :: |past| <= i < |log| ==> log[i].reply.Granted?
  }

  /** The last answer in between. */
  ghost predicate EndsWith<Q>(past: seq<Answer<Q>>, log: seq<Answer<Q>>, answer: Answer<Q>) {
    past <= log && |past| < |log| && log[|log| - 1] == answer
  }

  lemma GrantedWithin<Q>(past: seq<Answer<Q>>, m: seq<Answer<Q>>, n: seq<Answer<Q>>, log: seq<Answer<Q>>)
    requires past <= m <= n <= log
    ensures AllGranted(past, log) ==> AllGranted(m, n)
    ensures past <= n && m <= log && past <= log
  {
  }

  class Disk<P(==), F> {
    var files: map<P, F>

    /** No call fails on a healthy disk; on any other, any call may. */
    const healthy: bool

    /** The writes and removals that failed. */
    ghost var refused: nat

    /** Every state the files have been in, the present one last: a process that
        stops at any instant leaves one of these behind. */
    ghost var history: seq<map<P, F>>

    ghost predicate Valid()
      reads this
    {
      |history| > 0 && history[|history| - 1] == files
    }

    constructor (files: map<P, F>, healthy: bool)
      ensures Valid() && this.files == files && history == [files] && this.healthy == healthy && refused == 0
    {
      this.files, this.healthy := files, healthy;
      history, refused := [files], 0;
    }

    /** config.AtomicWriteFile: all of the new file or none of it. */
    method AtomicWriteFile(path: P, file: F) returns (ok: bool)
      modifies this
      ensures files == if ok then old(files)[path := file] else old(files)
      ensures history == if ok then old(history) + [files] else old(history)
      ensures refused == if ok then old(refused) else old(refused) + 1
      ensures healthy ==> ok
    {
      ok := *;
      ok := ok || healthy;
      if ok {
        files := files[path := file];
        history := history + [files];
      } else {
        refused := refused + 1;
      }
    }

    /** os.Remove. */
    method Remove(path: P) returns (result: Removal)
      modifies this
      ensures result == Absent ==> path !in old(files)
      ensures result == Removed ==> path in old(files)
      ensures files == if result == Removed then old(files) - {path} else old(files)
      ensures history == if result == Removed then old(history) + [files] else old(history)
      ensures refused == if result == Stuck then old(refused) + 1 else old(refused)
      ensures healthy ==> result != Stuck
    {
      var stuck: bool := *;
      if stuck && !healthy {
        refused := refused + 1;
        return Stuck;
      }
      if path !in files { return Absent; }
      files := files - {path};
      history := history + [files];
      return Removed;
    }

    /** os.RemoveAll: deletes entry by entry and may give up part way. */
    method RemoveAll(tree: set<P>) returns (ok: bool)
      modifies this
      ensures ok ==> files == old(files) - tree
      ensures refused == if ok then old(refused) else old(refused) + 1
      ensures healthy ==> ok
      ensures files - tree == old(files) - tree && files.Keys <= old(files).Keys
      ensures forall p :: p in files ==> files[p] == old(files)[p]
      ensures |old(history)| <= |history| && history[..|old(history)|] == old(history)
      ensures forall i :: |old(history)| <= i < |history| ==> history[i] - tree == old(files) - tree
      ensures old(Valid()) ==> Valid()
    {
      var rest := tree;
      while rest != {}
        invariant rest <= tree
        invariant files - tree == old(files) - tree && files.Keys <= old(files).Keys
        invariant forall p :: p in files ==> files[p] == old(files)[p]
        invariant forall p :: p in tree - rest ==> p !in files
        invariant refused == old(refused)
        invariant |old(history)| <= |history| && history[..|old(history)|] == old(history)
        invariant forall i :: |old(history)| <= i < |history| ==> history[i] - tree == old(files) - tree
        invariant old(Valid()) ==> Valid()
        decreases rest
      {
        var p :| p in rest;
        var removed := Remove(p);
        if removed == Stuck { return false; }
        rest := rest - {p};
      }
      return true;
    }

    /** os.Lstat followed by os.ReadFile. */
    method Inspect(path: P) returns (result: Inspection<F>)
      ensures result == Missing ==> path !in files
      ensures result.Found? ==> path in files && result.file == files[path]
      ensures healthy ==> !result.Unreadable?
    {
      var unreadable: bool := *;
      if unreadable && !healthy { return Unreadable; }
      result := if path in files then Found(files[path]) else Missing;
    }

    /** os.ReadDir. */
    method List() returns (paths: Option<seq<P>>)
      ensures paths.Some? ==> forall p :: p in paths.value <==> p in files
      ensures paths.Some? ==> forall i, j :: 0 <= i < j < |paths.value| ==> paths.value[i] != paths.value[j]
      ensures healthy ==> paths.Some?
    {
      var unreadable: bool := *;
      if unreadable && !healthy { return None; }
      var found: seq<P> := [];
      var rest := files.Keys;
      while rest != {}
        invariant rest <= files.Keys
        invariant forall p :: p in found <==> p in files.Keys - rest
        invariant forall i, j :: 0 <= i < j < |found| ==> found[i] != found[j]
        decreases rest
      {
        var p :| p in rest;
        assert p !in found;
        found, rest := found + [p], rest - {p};
      }
      return Some(found);
    }
  }
}
