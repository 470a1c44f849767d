/**
  The index of live runs (internal/journal/enforce.go): one symbolic link per live
  enforced run, kept in step with the run directories a working copy at a time.
 */
module LiveIndex {
  import opened Wrappers

  /** A run directory under the state directory. */
  datatype RunDir = RunDir(slug: string, workflow: string, run: string)

  /** What the journal of a run directory says: whether the run is over, and whether it
      was started with enforcement opted out (unknowable of an unreadable one). */
  datatype RunInfo = RunInfo(over: bool, optedOut: bool)

  type Runs = map<RunDir, RunInfo>

  /** Where a link of the index points: at something of the form of a run directory, or
      anywhere else, which may exist or not. */
  datatype Target = Run(dir: RunDir) | Elsewhere(path: string, exists_: bool)

  type Entries = map<string, Target>

  const SEP := "__"

  function Prefix(slug: string): string {
    slug + SEP
  }

  function Name(r: RunDir): string {
    Prefix(r.slug) + r.workflow + SEP + r.run
  }

  predicate HasPrefix(name: string, prefix: string) {
    |prefix| <= |name| && name[..|prefix|] == prefix
  }

  predicate Dangling(runs: Runs, t: Target) {
    if t.Run? then t.dir !in runs else !t.exists_
  }

  predicate EnforcedLive(runs: Runs, r: RunDir) {
    r in runs && !runs[r].over && !runs[r].optedOut
  }

  /** The links a working copy should have. */
  ghost predicate IsWanted(runs: Runs, slug: string, want: Entries) {
    && (forall r :: EnforcedLive(runs, r) && r.slug == slug ==> Name(r) in want)
    && (forall n :: n in want ==> want[n].Run? && want[n].dir.slug == slug && EnforcedLive(runs, want[n].dir)
                                  && Name(want[n].dir) == n)
  }

  // ---- names ------------------------------------------------------------------------------------

  predicate PlainRun(r: RunDir) {
    '_' !in r.run
  }

  /** Within one working copy, runs whose ids have no underscore have different names. */
  lemma NameIsInjective(a: RunDir, b: RunDir)
    requires a.slug == b.slug && PlainRun(a) && PlainRun(b) && Name(a) == Name(b)
    ensures a == b
  {
    var n := Name(a);
    assert n[|n| - |a.run|..] == a.run && n[|n| - |b.run|..] == b.run;
    assert n[|n| - |a.run| - 1] == '_' && n[|n| - |b.run| - 1] == '_';
    assert |a.run| == |b.run|;
    assert n[|Prefix(a.slug)|..|n| - |a.run| - 2] == a.workflow;
    assert n[|Prefix(a.slug)|..|n| - |b.run| - 2] == b.workflow;
  }

  lemma NameHasPrefix(r: RunDir)
    ensures HasPrefix(Name(r), Prefix(r.slug))
  {
    assert Name(r) == Prefix(r.slug) + (r.workflow + SEP + r.run);
  }

  // ---- the index -------------------------------------------------------------------------------

  /** The index after one working copy has been brought in step: its own entries are
      the wanted ones, every other entry is kept unless it dangles. */
  ghost predicate Synced(runs: Runs, slug: string, want: Entries, before: Entries, after: Entries) {
    forall n :: (n in after <==> if HasPrefix(n, Prefix(slug)) then n in want else n in before && !Dangling(runs, before[n]))
                && (n in after ==> after[n] == if HasPrefix(n, Prefix(slug)) then want[n] else before[n])
  }

  /** An entry that a sync leaves where it is. */
  ghost predicate Keeps(runs: Runs, slug: string, want: Entries, before: Entries, n: string): (keeps: bool)
    ensures keeps ==> n in before
  {
    n in before && if HasPrefix(n, Prefix(slug)) then n in want && want[n] == before[n] else !Dangling(runs, before[n])
  }

  lemma KeepsByEntry(runs: Runs, slug: string, want: Entries, a: Entries, b: Entries, n: string)
    requires n in a && n in b && a[n] == b[n]
    ensures Keeps(runs, slug, want, a, n) == Keeps(runs, slug, want, b, n)
  {}

  lemma KeepsWhat(runs: Runs, slug: string, want: Entries, before: Entries, n: string)
    ensures Keeps(runs, slug, want, before, n) <==>
              n in before
              && if HasPrefix(n, Prefix(slug)) then n in want && want[n] == before[n] else !Dangling(runs, before[n])
  {}

  class Index {
    var entries: Entries

    constructor (entries: Entries)
      ensures this.entries == entries
    {
      this.entries := entries;
    }

    /** Bring one working copy's entries in step with its run directories. */
    method SyncSlug(runs: Runs, slug: string) returns (ghost want: Entries)
      modifies this
      ensures IsWanted(runs, slug, want) && Synced(runs, slug, want, old(entries), entries)
    {
      hide Keeps;
      var wanted := Wanted(runs, slug);
      want := wanted;
      ghost var before := entries;
      var missing := Prune(runs, slug, wanted);
      ghost var pruned := entries;
      LinkMissing(missing);
      forall n
        ensures (n in entries <==> if HasPrefix(n, Prefix(slug)) then n in want
                                   else n in before && !Dangling(runs, before[n]))
                && (n in entries ==> entries[n] == if HasPrefix(n, Prefix(slug)) then want[n] else before[n])
      {
        WantedHasPrefix(runs, slug, want, n);
        KeepsWhat(runs, slug, want, before, n);
      }
    }

    /** Remove what should not be there; what is wanted and not there is missing. */
    method Prune(runs: Runs, slug: string, want: Entries) returns (missing: Entries)
      requires IsWanted(runs, slug, want)
      modifies this
      ensures forall n :: n in entries <==> Keeps(runs, slug, want, old(entries), n)
      ensures forall n :: n in entries ==> n in old(entries) && entries[n] == old(entries)[n]
      ensures missing == want - entries.Keys
    {
      hide IsWanted, HasPrefix, Dangling, Keeps;
      ghost var before := entries;
      missing := want;
      var left := entries.Keys;
      while left != {}
        invariant left <= before.Keys
        invariant forall n :: n in entries <==> n in before && (n in left || Keeps(runs, slug, want, before, n))
        invariant forall n :: n in entries ==> entries[n] == before[n]
        invariant missing == want - (entries.Keys - left)
        decreases |left|
      {
        var name :| name in left;
        KeepsByEntry(runs, slug, want, before, entries, name);
        missing := PruneEntry(runs, slug, want, missing, name);
        left := left - {name};
      }
    }

    /** Look at one entry: another working copy's is removed if it dangles, its own
        unless it is wanted as it is. */
    method PruneEntry(runs: Runs, slug: string, ghost want: Entries, missing: Entries, name: string)
      returns (still: Entries)
      requires IsWanted(runs, slug, want) && name in entries && (name in missing <==> name in want)
      requires name in missing ==> missing[name] == want[name]
      modifies this
      ensures entries == if Keeps(runs, slug, want, old(entries), name) then old(entries) else old(entries) - {name}
      ensures still == if Keeps(runs, slug, want, old(entries), name) then missing - {name} else missing
    {
      WantedHasPrefix(runs, slug, want, name);
      still := missing;
      if !HasPrefix(name, Prefix(slug)) {
        if Dangling(runs, entries[name]) {
          entries := entries - {name};
        }
      } else if name in missing && entries[name] == missing[name] {
        still := missing - {name};
      } else {
        entries := entries - {name};
      }
    }

    /** Make the links that are missing; one that exists already is left. */
    method LinkMissing(missing: Entries)
      modifies this
      ensures entries == missing + old(entries)
    {
      ghost var before := entries;
      var left := missing.Keys;
      while left != {}
        invariant left <= missing.Keys
        invariant forall n :: n in entries <==> n in before || (n in missing && n !in left)
        invariant forall n :: n in entries ==> entries[n] == if n in before then before[n] else missing[n]
        decreases |left|
      {
        var name :| name in left;
        if name !in entries {
          entries := entries[name := missing[name]];
        }
        left := left - {name};
      }
      assert entries == missing + before;
    }

    /** The runs the index points at that are not over: each entry is checked against
        its own name and the run's journal. */
    method LiveIndexed(runs: Runs) returns (found: set<RunDir>)
      ensures forall r :: r in found <==> Indexed(entries, runs, r)
    {
      found := {};
      var left := entries.Keys;
      while left != {}
        invariant left <= entries.Keys
        invariant forall r :: r in found <==> Name(r) !in left && Indexed(entries, runs, r)
        decreases |left|
      {
        var name :| name in left;
        var t := entries[name];
        if t.Run? && Name(t.dir) == name && t.dir in runs && !runs[t.dir].over {
          found := found + {t.dir};
        }
        left := left - {name};
      }
    }
  }

  /** An entry of the run's own name points at the run, and the run is not over. */
  predicate Indexed(entries: Entries, runs: Runs, r: RunDir) {
    Name(r) in entries && entries[Name(r)] == Run(r) && r in runs && !runs[r].over
  }

  lemma WantedHasPrefix(runs: Runs, slug: string, want: Entries, name: string)
    requires IsWanted(runs, slug, want)
    ensures name in want ==> HasPrefix(name, Prefix(slug))
  {
    if name in want {
      NameHasPrefix(want[name].dir);
    }
  }

  /** The links a working copy should have, collected over its live runs. */
  method Wanted(runs: Runs, slug: string) returns (want: Entries)
    ensures IsWanted(runs, slug, want)
  {
    want := map[];
    var left := runs.Keys;
    while left != {}
      invariant left <= runs.Keys
      invariant forall r :: EnforcedLive(runs, r) && r.slug == slug && r !in left ==> Name(r) in want
      invariant forall n :: n in want ==> want[n].Run? && want[n].dir.slug == slug && EnforcedLive(runs, want[n].dir)
                                          && Name(want[n].dir) == n
      decreases |left|
    {
      var r :| r in left;
      if r.slug == slug && !runs[r].over && !runs[r].optedOut {
        want := want[Name(r) := Run(r)];
      }
      left := left - {r};
    }
  }

  // ---- what a sync achieves ---------------------------------------------------------------------

  /** The wanted links are settled by the run directories, when run ids have no
      underscore. */
  lemma WantedIsUnique(runs: Runs, slug: string, a: Entries, b: Entries)
    requires IsWanted(runs, slug, a) && IsWanted(runs, slug, b)
    requires forall r :: r in runs ==> PlainRun(r)
    ensures a == b
  {
    forall n
      ensures n in a <==> n in b
    {
      if n in a {
        assert Name(a[n].dir) in b;
      }
      if n in b {
        assert Name(b[n].dir) in a;
      }
    }
    forall n | n in a
      ensures a[n] == b[n]
    {
      NameIsInjective(a[n].dir, b[n].dir);
    }
  }

  /** Syncing again changes nothing. */
  lemma SyncIsIdempotent(runs: Runs, slug: string, want: Entries, again: Entries, before: Entries, once: Entries,
                         twice: Entries)
    requires forall r :: r in runs ==> PlainRun(r)
    requires IsWanted(runs, slug, want) && Synced(runs, slug, want, before, once)
    requires IsWanted(runs, slug, again) && Synced(runs, slug, again, once, twice)
    ensures twice == once
  {
    WantedIsUnique(runs, slug, want, again);
    assert forall n :: n in twice <==> n in once;
  }

  /** Whatever the index holds, only runs that are not over are ever found through it;
      and a run of the working copy just synced is found exactly when it is live and
      enforced. */
  lemma SyncedRunsAreFound(runs: Runs, slug: string, want: Entries, before: Entries, after: Entries, r: RunDir)
    requires forall s :: s in runs ==> PlainRun(s)
    requires IsWanted(runs, slug, want) && Synced(runs, slug, want, before, after) && r.slug == slug
    ensures Indexed(after, runs, r) <==> EnforcedLive(runs, r)
  {
    NameHasPrefix(r);
    if EnforcedLive(runs, r) {
      NameIsInjective(want[Name(r)].dir, r);
    }
  }

  /** What syncing one working copy does to a run of another: an entry stays exactly if
      it was there and its name does not start with the synced prefix. */
  lemma ElsewhereByPrefix(runs: Runs, slug: string, r: RunDir, want: Entries, before: Entries, after: Entries)
    requires r.slug != slug && IsWanted(runs, slug, want) && Synced(runs, slug, want, before, after)
    ensures Indexed(after, runs, r) <==> Indexed(before, runs, r) && !HasPrefix(Name(r), Prefix(slug))
  {}

  /** So a live enforced run of another working copy is lost if and only if its name
      starts with the synced prefix. */
  lemma KeptIffOutsidePrefix(runs: Runs, slug: string, r: RunDir, want: Entries, before: Entries, after: Entries)
    requires r.slug != slug && EnforcedLive(runs, r) && Indexed(before, runs, r)
    requires IsWanted(runs, slug, want) && Synced(runs, slug, want, before, after)
    ensures Indexed(after, runs, r) <==> !HasPrefix(Name(r), Prefix(slug))
  {
    ElsewhereByPrefix(runs, slug, r, want, before, after);
  }

  /** The part of the index that belongs to a working copy is in step. */
  ghost predicate InStep(runs: Runs, slug: string, entries: Entries) {
    forall r: RunDir :: r.slug == slug ==> (Indexed(entries, runs, r) <==> EnforcedLive(runs, r))
  }

  /** Syncing one working copy leaves another in step if and only if no live run of the
      other has a name with the synced prefix. */
  lemma OthersStayInStep(runs: Runs, slug: string, other: string, want: Entries, before: Entries, after: Entries)
    requires InStep(runs, other, before) && IsWanted(runs, slug, want) && Synced(runs, slug, want, before, after)
    requires other != slug
    ensures InStep(runs, other, after) <==>
              forall r: RunDir :: r.slug == other && EnforcedLive(runs, r) ==> !HasPrefix(Name(r), Prefix(slug))
  {
    hide Synced, IsWanted, Indexed, EnforcedLive, HasPrefix, Name, Prefix;
    forall r: RunDir | r.slug == other
      ensures Indexed(after, runs, r) <==> EnforcedLive(runs, r) && !HasPrefix(Name(r), Prefix(slug))
    {
      ElsewhereByPrefix(runs, slug, r, want, before, after);
    }
  }

  // ---- every working copy -----------------------------------------------------------------------

  /** After these syncs, in this order, nothing has dropped the run since its own working
      copy was last synced. */
  predicate StillKept(slugs: seq<string>, r: RunDir) {
    |slugs| > 0 &&
    var last := slugs[|slugs| - 1];
    last == r.slug || (StillKept(slugs[..|slugs| - 1], r) && !HasPrefix(Name(r), Prefix(last)))
  }

  /** That is: its working copy was synced, and none synced after it has a prefix the
      run's name starts with. */
  lemma {:induction false} KeptSinceOwnSync(slugs: seq<string>, r: RunDir)
    ensures StillKept(slugs, r) <==>
              exists i :: 0 <= i < |slugs| && slugs[i] == r.slug
                          && forall j :: i < j < |slugs| ==> !HasPrefix(Name(r), Prefix(slugs[j])) || slugs[j] == r.slug
  {
    hide HasPrefix, Name, Prefix;
    if |slugs| > 0 {
      var front, last := slugs[..|slugs| - 1], slugs[|slugs| - 1];
      KeptSinceOwnSync(front, r);
      if last == r.slug {
        assert slugs[|slugs| - 1] == r.slug;
      } else {
        forall i | 0 <= i < |slugs| && slugs[i] == r.slug
                   && forall j :: i < j < |slugs| ==> !HasPrefix(Name(r), Prefix(slugs[j])) || slugs[j] == r.slug
          ensures StillKept(slugs, r)
        {
          assert front[i] == r.slug && forall j :: i < j < |front| ==> front[j] == slugs[j];
        }
        if StillKept(slugs, r) {
          var i :| 0 <= i < |front| && front[i] == r.slug
                   && forall j :: i < j < |front| ==> !HasPrefix(Name(r), Prefix(front[j])) || front[j] == r.slug;
          assert slugs[i] == r.slug;
        }
      }
    }
  }

  /** Every working copy is synced, in some order, from any index: found are exactly the
      live enforced runs that no later sync drops. */
  method SyncAll(index: Index, runs: Runs, slugs: seq<string>) returns (found: set<RunDir>)
    requires forall r :: r in runs ==> PlainRun(r) && r.slug in slugs
    modifies index
    ensures forall r :: r in found <==> EnforcedLive(runs, r) && StillKept(slugs, r)
  {
    hide Indexed, EnforcedLive, HasPrefix, Name, Prefix, Synced, IsWanted;
    var i := 0;
    while i < |slugs|
      invariant 0 <= i <= |slugs|
      invariant forall r: RunDir :: r.slug in slugs[..i] ==>
                  (Indexed(index.entries, runs, r) <==> EnforcedLive(runs, r) && StillKept(slugs[..i], r))
    {
      ghost var before := index.entries;
      ghost var want := index.SyncSlug(runs, slugs[i]);
      assert slugs[..i + 1][..i] == slugs[..i];
      forall r: RunDir | r.slug in slugs[..i + 1]
        ensures Indexed(index.entries, runs, r) <==> EnforcedLive(runs, r) && StillKept(slugs[..i + 1], r)
      {
        if r.slug == slugs[i] {
          SyncedRunsAreFound(runs, slugs[i], want, before, index.entries, r);
        } else {
          ElsewhereByPrefix(runs, slugs[i], r, want, before, index.entries);
        }
      }
      i := i + 1;
    }
    assert slugs[..i] == slugs;
    found := index.LiveIndexed(runs);
    forall r: RunDir
      ensures r in found <==> EnforcedLive(runs, r) && StillKept(slugs, r)
    {
      OnlyRunsAreFound(index.entries, runs, r);
    }
  }

  lemma OnlyRunsAreFound(entries: Entries, runs: Runs, r: RunDir)
    ensures r !in runs ==> !Indexed(entries, runs, r) && !EnforcedLive(runs, r)
  {}

  /** Two ways in which names overlap: one slug is another with an underscore after it,
      or continues another's prefix. Syncing the shorter drops a live run of the longer. */
  lemma UnderscoredSlugIsDropped(runs: Runs, slug: string, r: RunDir, want: Entries, before: Entries, after: Entries)
    requires r.slug == slug + "_" || HasPrefix(r.slug, Prefix(slug))
    requires IsWanted(runs, slug, want) && Synced(runs, slug, want, before, after)
    ensures !Indexed(after, runs, r)
  {
    var n := Name(r);
    if r.slug == slug + "_" {
      assert n[..|slug| + 2] == Prefix(slug);
    } else {
      assert n[..|r.slug|] == r.slug && n[..|slug| + 2] == r.slug[..|slug| + 2];
    }
    assert HasPrefix(n, Prefix(slug));
    ElsewhereByPrefix(runs, slug, r, want, before, after);
  }

  /** Overlapping slugs need lose nothing: a run is kept although its slug starts with the
      synced one, as long as no double underscore comes next. */
  lemma OverlapMayBeHarmless(slug: string, r: RunDir)
    requires |r.slug| > |slug| + 1 && r.slug[..|slug|] == slug && r.slug[|slug|..|slug| + 2] != SEP
    ensures !HasPrefix(Name(r), Prefix(slug))
  {
    assert Name(r)[|slug|..|slug| + 2] == r.slug[|slug|..|slug| + 2] && Prefix(slug)[|slug|..] == SEP;
    assert |Name(r)| >= |slug| + 2 && Name(r)[..|slug| + 2][|slug|..] == Name(r)[|slug|..|slug| + 2];
  }
}
