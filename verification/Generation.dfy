/**
 `generate` and `check` over the repository's files. Directories are the paths above files; `Special` is any entry that
 is neither a directory nor a regular file. The produced outputs are a parameter: the generators read only sources.
 */
module Generation {
  import opened Inventory
  import opened Octets
  import opened Options

  datatype Entry = Regular(bytes: Bytes) | Special

  type Files = map<Path, Entry>

  /** The regular files of `prefixes` directly inside `directory` belong to the pack generator. */
  datatype Owned = Owned(directory: Path, prefixes: seq<string>)

  datatype Change = Removed(path: Path) | Wrote(path: Path)

  const OWNED_PROTOCOL_ROOTS: seq<Path> := [
    "crates/eutheto-solver-ortools/src/generated",
    "protocol/generated",
    "protocol/golden"
  ]

  const OWNED_PREFIXES: seq<Owned> := [
    Owned("schemas/generated", ["official-test.", "workforce."]),
    Owned("xtask/generated", ["official-test-", "workforce-"]),
    Owned("docs/generated", ["official-test-pack-contract", "workforce-pack-contract"]),
    Owned("crates/eutheto-command/src", ["generated_official_test_pack_contract"]),
    Owned("domains/workforce/core/src", ["generated_workforce_pack_contract"]),
    Owned("apps/desktop/src/api", ["generated-domain-pack-contracts"])
  ]

  predicate Under(directory: Path, p: Path) { directory + "/" <= p }

  /** No entry lies below another. */
  ghost predicate Tree(files: Files) {
    forall p, q | p in files && q in files :: !Under(p, q)
  }

  function Paths(outputs: seq<Output>): set<Path> { set o | o in outputs :: o.path }

  // ----- what the two generators own -----

  predicate InRoots(roots: seq<Path>, p: Path) { exists i | 0 <= i < |roots| :: Under(roots[i], p) }

  predicate Matches(o: Owned, p: Path) {
    Under(o.directory, p) && exists j | 0 <= j < |o.prefixes| :: o.prefixes[j] <= p[|o.directory| + 1..]
  }

  predicate MatchesAny(owned: seq<Owned>, p: Path) { exists i | 0 <= i < |owned| :: Matches(owned[i], p) }

  /** The matching directory entry is a directory, or not a file at all. */
  predicate Odd(o: Owned, p: Path, e: Entry)
    requires Matches(o, p)
  {
    e.Special? || '/' in p[|o.directory| + 1..]
  }

  ghost predicate Clean(files: Files, owned: seq<Owned>) {
    forall i, p | 0 <= i < |owned| && p in files && Matches(owned[i], p) :: !Odd(owned[i], p, files[p])
  }

  function Obsolete(files: Files, roots: seq<Path>, expected: set<Path>): set<Path> {
    set p | p in files && files[p].Regular? && InRoots(roots, p) && p !in expected
  }

  function Unexpected(files: Files, owned: seq<Owned>, expected: set<Path>): set<Path> {
    set p | p in files && MatchesAny(owned, p) && p !in expected
  }

  // ----- the state generation aims for -----

  ghost predicate Present(files: Files, outputs: seq<Output>) {
    forall o | o in outputs :: o.path in files && files[o.path] == Regular(o.contents)
  }

  /** Every output is in place, and the owned names hold nothing else. */
  ghost predicate Converged(files: Files, outputs: seq<Output>) {
    && Obsolete(files, OWNED_PROTOCOL_ROOTS, Paths(outputs)) == {}
    && Clean(files, OWNED_PREFIXES)
    && Unexpected(files, OWNED_PREFIXES, Paths(outputs)) == {}
    && Present(files, outputs)
  }

  predicate Same(files: Files, files': Files, p: Path) {
    (p in files <==> p in files') && (p in files ==> files'[p] == files[p])
  }

  /** The outputs laid over the files. */
  ghost predicate Overlaid(files: Files, outputs: seq<Output>, files': Files) {
    Present(files', outputs) && forall p | p !in Paths(outputs) :: Same(files, files', p)
  }

  /** The files without what the generators no longer produce. */
  ghost function Kept(files: Files, outputs: seq<Output>): Files {
    var rest := files - Obsolete(files, OWNED_PROTOCOL_ROOTS, Paths(outputs));
    rest - Unexpected(rest, OWNED_PREFIXES, Paths(outputs))
  }

  /** Writing the path needs every path above it to be a directory and the path itself not to be one. */
  ghost predicate Writable(files: Files, p: Path) {
    (forall q | q in files :: !Under(q, p) && !Under(p, q)) && (p in files ==> files[p].Regular?)
  }

  ghost predicate Compatible(outputs: seq<Output>) {
    forall o, o' | o in outputs && o' in outputs :: !Under(o.path, o'.path)
  }

  /** Nothing odd among the owned names, and room for every output. */
  ghost predicate Possible(files: Files, outputs: seq<Output>) {
    && Clean(files - Obsolete(files, OWNED_PROTOCOL_ROOTS, Paths(outputs)), OWNED_PREFIXES)
    && Compatible(outputs)
    && forall o | o in outputs :: Writable(Kept(files, outputs), o.path)
  }

  /** No output lies inside a directory that bears an owned name. */
  ghost predicate Flat(outputs: seq<Output>, owned: seq<Owned>) {
    forall i, o | 0 <= i < |owned| && o in outputs && Matches(owned[i], o.path)
        :: '/' !in o.path[|owned[i].directory| + 1..]
  }

  /** Paths that no generator owns or produces. */
  ghost predicate Foreign(p: Path, outputs: seq<Output>) {
    p !in Paths(outputs) && !InRoots(OWNED_PROTOCOL_ROOTS, p) && !MatchesAny(OWNED_PREFIXES, p)
  }

  // ----- the repository -----

  class Repository {
    var files: Files
    var log: seq<Change>

    method RemoveAll(paths: set<Path>)
      modifies this
      ensures files == old(files) - paths
      ensures paths == {} ==> log == old(log)
    {
      var todo := paths;
      while todo != {}
        invariant todo <= paths && files == old(files) - (paths - todo)
        invariant paths == {} ==> log == old(log)
      {
        var p :| p in todo;
        files := files - {p};
        log := log + [Removed(p)];
        todo := todo - {p};
        assert paths - todo == (paths - (todo + {p})) + {p};
      }
    }

    method RemoveObsolete(roots: seq<Path>, expected: set<Path>)
      modifies this
      ensures files == old(files) - Obsolete(old(files), roots, expected)
      ensures Obsolete(old(files), roots, expected) == {} ==> log == old(log)
    {
      var i := 0;
      while i < |roots|
        invariant i <= |roots|
        invariant files == old(files) - Obsolete(old(files), roots[..i], expected)
        invariant Obsolete(old(files), roots[..i], expected) == {} ==> log == old(log)
      {
        ghost var before := files;
        ObsoleteSplits(old(files), roots, i, expected);
        RemoveAll(Obsolete(files, [roots[i]], expected));
        assert files == before - Obsolete(before, [roots[i]], expected);
        i := i + 1;
      }
      assert roots[..i] == roots;
    }

    /** The owned names nobody produces any more; none when a matching entry is no regular file. */
    method UnexpectedFiles(owned: seq<Owned>, expected: set<Path>) returns (r: Option<set<Path>>)
      ensures r.Some? <==> Clean(files, owned)
      ensures r.Some? ==> r.value == Unexpected(files, owned, expected)
    {
      var unexpected: set<Path> := {};
      var i := 0;
      while i < |owned|
        invariant i <= |owned|
        invariant forall k, p | 0 <= k < i && p in files && Matches(owned[k], p) :: !Odd(owned[k], p, files[p])
        invariant unexpected == Unexpected(files, owned[..i], expected)
      {
        if exists p | p in files.Keys && Matches(owned[i], p) :: Odd(owned[i], p, files[p]) { return None; }
        UnexpectedSplits(files, owned, i, expected);
        unexpected := unexpected + set p | p in files.Keys && Matches(owned[i], p) && p !in expected;
        i := i + 1;
      }
      assert owned[..i] == owned;
      return Some(unexpected);
    }

    /** Creates the parents, compares, and writes what differs; fails where the path cannot be written. */
    method WriteOne(o: Output) returns (ok: bool)
      modifies this
      ensures ok <==> Writable(old(files), o.path)
      ensures files == if ok then old(files)[o.path := Regular(o.contents)] else old(files)
      ensures o.path in old(files) && old(files)[o.path] == Regular(o.contents) ==> log == old(log)
    {
      if (exists q | q in files.Keys :: Under(q, o.path) || Under(o.path, q))
         || (o.path in files && files[o.path].Special?) {
        return false;
      }
      if o.path !in files || files[o.path] != Regular(o.contents) {
        files := files[o.path := Regular(o.contents)];
        log := log + [Wrote(o.path)];
      }
      return true;
    }

    method WriteAll(outputs: seq<Output>) returns (ok: bool)
      requires Distinct(outputs) && Tree(files)
      modifies this
      ensures Tree(files)
      ensures ok <==> Compatible(outputs) && forall o | o in outputs :: Writable(old(files), o.path)
      ensures ok ==> Overlaid(old(files), outputs, files)
      ensures forall p | p !in Paths(outputs) :: Same(old(files), files, p)
      ensures Present(old(files), outputs) ==> log == old(log)
    {
      var i := 0;
      while i < |outputs|
        invariant i <= |outputs| && Tree(files)
        invariant Compatible(outputs[..i]) && forall o | o in outputs[..i] :: Writable(old(files), o.path)
        invariant Overlaid(old(files), outputs[..i], files)
        invariant Present(old(files), outputs) ==> log == old(log)
      {
        assert outputs[..i + 1] == outputs[..i] + [outputs[i]];
        WriteStep(old(files), outputs, i, files);
        ok := WriteOne(outputs[i]);
        if !ok { return; }
        i := i + 1;
      }
      assert outputs[..i] == outputs;
      return true;
    }

    /**
     Succeeds exactly when it can, and then exactly the outputs lie over what is kept; that is a state `Check` accepts
     exactly when the outputs are flat. Whatever happens, a file no generator owns is left alone. On a converged
     repository nothing is written or removed.
     */
    method Generate(produced: seq<Output>) returns (ok: bool)
      requires Tree(files)
      modifies this
      ensures Tree(files)
      ensures ok <==> OwnedOnce(produced) && Possible(old(files), produced)
      ensures ok ==> Overlaid(Kept(old(files), produced), produced, files)
      ensures ok ==> (Converged(files, produced) <==> Flat(produced, OWNED_PREFIXES))
      ensures forall p | Foreign(p, produced) :: Same(old(files), files, p)
      ensures OwnedOnce(produced) && Converged(old(files), produced) ==>
        ok && files == old(files) && log == old(log)
    {
      var all := AllGenerated(produced);
      if all.None? { return false; }
      var outputs := all.value;
      SameOutputs(outputs, produced);
      KeptForeign(files, produced);
      if Converged(files, produced) { Stable(files, produced); }
      RemoveObsolete(OWNED_PROTOCOL_ROOTS, Paths(outputs));
      var obsolete := UnexpectedFiles(OWNED_PREFIXES, Paths(outputs));
      if obsolete.None? { return false; }
      RemoveAll(obsolete.value);
      ghost var kept := files;
      assert kept == Kept(old(files), produced);
      ok := WriteAll(outputs);
      if ok { Reached(old(files), produced, files); }
      if ok && Converged(old(files), produced) { Unchanged(kept, produced, files); }
    }

    /** Accepts exactly the converged repositories. */
    method Check(produced: seq<Output>) returns (ok: bool)
      ensures ok <==> OwnedOnce(produced) && Converged(files, produced)
    {
      var all := AllGenerated(produced);
      if all.None? { return false; }
      var outputs := all.value;
      SameOutputs(outputs, produced);
      if Obsolete(files, OWNED_PROTOCOL_ROOTS, Paths(outputs)) != {} { return false; }
      var unexpected := UnexpectedFiles(OWNED_PREFIXES, Paths(outputs));
      if unexpected.None? || unexpected.value != {} { return false; }
      var drifted: seq<Path> := [];
      for i := 0 to |outputs|
        invariant drifted == [] <==> Present(files, outputs[..i])
      {
        assert outputs[..i + 1] == outputs[..i] + [outputs[i]];
        var o := outputs[i];
        if o.path !in files || files[o.path] != Regular(o.contents) { drifted := drifted + [o.path]; }
      }
      assert outputs[..|outputs|] == outputs;
      return drifted == [];
    }
  }

  lemma KeptForeign(files: Files, outputs: seq<Output>)
    ensures forall p | Foreign(p, outputs) ::
      && Same(files, files - Obsolete(files, OWNED_PROTOCOL_ROOTS, Paths(outputs)), p)
      && Same(files, Kept(files, outputs), p)
  {
  }

  /** On a converged tree nothing is obsolete and everything can be written. */
  lemma Stable(files: Files, outputs: seq<Output>)
    requires Tree(files) && Converged(files, outputs)
    ensures Kept(files, outputs) == files && Possible(files, outputs)
  {
    assert files - Obsolete(files, OWNED_PROTOCOL_ROOTS, Paths(outputs)) == files;
    assert Kept(files, outputs) == files;
  }

  lemma Unchanged(files: Files, outputs: seq<Output>, files': Files)
    requires Present(files, outputs) && Overlaid(files, outputs, files')
    ensures files' == files
  {
    forall p ensures (p in files' <==> p in files) && (p in files ==> files'[p] == files[p]) {
      if p in Paths(outputs) {
        var o :| o in outputs && o.path == p;
      } else {
        assert Same(files, files', p);
      }
    }
  }

  /**
   An output below a directory with an owned name can be generated into an empty tree and is then refused by `Check`.
   */
  lemma NestedOutputDrifts(contents: Bytes)
    ensures exists outputs :: OwnedOnce(outputs) && Possible(map[], outputs) && !Flat(outputs, OWNED_PREFIXES)
  {
    var owned := OWNED_PREFIXES[2];
    var path := owned.directory + "/" + owned.prefixes[1] + "/x";
    var rest := path[|owned.directory| + 1..];
    assert rest == owned.prefixes[1] + "/x";
    assert rest[|owned.prefixes[1]|] == '/';
    var outputs := [Output(path, contents)];
    assert OwnedOnce(outputs);
    NotItself(path);
    var none: Files := map[];
    assert none - Obsolete(none, OWNED_PROTOCOL_ROOTS, Paths(outputs)) == none;
    assert Possible(none, outputs);
    assert Matches(owned, path);
    assert outputs[0] in outputs;
  }

  lemma Reached(files: Files, outputs: seq<Output>, files': Files)
    requires Overlaid(Kept(files, outputs), outputs, files')
    ensures Converged(files', outputs) <==> Flat(outputs, OWNED_PREFIXES)
  {
    forall p | p in files' && p !in Paths(outputs)
      ensures !(files'[p].Regular? && InRoots(OWNED_PROTOCOL_ROOTS, p)) && !MatchesAny(OWNED_PREFIXES, p)
    {
      assert Same(Kept(files, outputs), files', p);
    }
    ReachedClean(OWNED_PREFIXES, outputs, files');
  }

  lemma ReachedClean(owned: seq<Owned>, outputs: seq<Output>, files: Files)
    requires Present(files, outputs)
    requires forall p | p in files && p !in Paths(outputs) :: !MatchesAny(owned, p)
    ensures Clean(files, owned) <==> Flat(outputs, owned)
  {
    if Flat(outputs, owned) {
      forall i, p | 0 <= i < |owned| && p in files && Matches(owned[i], p) ensures !Odd(owned[i], p, files[p]) {
        assert MatchesAny(owned, p);
        var o :| o in outputs && o.path == p;
      }
    }
  }

  lemma SameOutputs(outputs: seq<Output>, produced: seq<Output>)
    requires multiset(outputs) == multiset(produced)
    ensures forall o :: o in outputs <==> o in produced
    ensures Paths(outputs) == Paths(produced)
  {
    forall o ensures o in outputs <==> o in produced {
      assert o in outputs <==> o in multiset(outputs);
      assert o in produced <==> o in multiset(produced);
    }
  }

  lemma NotItself(p: Path)
    ensures !Under(p, p)
  {
    assert |p + "/"| > |p|;
  }

  lemma AddedPath(outputs: seq<Output>, o: Output, p: Path)
    ensures p in Paths(outputs + [o]) <==> p in Paths(outputs) || p == o.path
  {
    if p in Paths(outputs) {
      var d :| d in outputs && d.path == p;
      assert d in outputs + [o];
    }
    assert o in outputs + [o];
  }

  lemma OverlaidKeys(base: Files, outputs: seq<Output>, files: Files)
    requires Overlaid(base, outputs, files)
    ensures forall q :: q in files <==> q in base || q in Paths(outputs)
  {
    forall q ensures q in files <==> q in base || q in Paths(outputs) {
      if q !in Paths(outputs) { assert Same(base, files, q); }
    }
  }

  /** A path is writable after some outputs exactly when it was before and does not clash with them. */
  lemma WritableAfter(base: Files, outputs: seq<Output>, o: Output, files: Files)
    requires Overlaid(base, outputs, files) && Compatible(outputs) && o.path !in Paths(outputs)
    ensures Writable(files, o.path) <==> Compatible(outputs + [o]) && Writable(base, o.path)
  {
    OverlaidKeys(base, outputs, files);
    assert Same(base, files, o.path);
    if Writable(files, o.path) {
      forall d, e | d in outputs + [o] && e in outputs + [o] ensures !Under(d.path, e.path) {
        assert d in outputs ==> d.path in Paths(outputs);
        assert e in outputs ==> e.path in Paths(outputs);
        NotItself(o.path);
      }
    }
    if Compatible(outputs + [o]) && Writable(base, o.path) {
      forall q | q in files ensures !Under(q, o.path) && !Under(o.path, q) {
        if q in Paths(outputs) {
          var d :| d in outputs && d.path == q;
          assert d in outputs + [o] && o in outputs + [o];
        }
      }
    }
  }

  lemma OverlayOne(base: Files, outputs: seq<Output>, o: Output, files: Files)
    requires Overlaid(base, outputs, files) && o.path !in Paths(outputs)
    ensures Overlaid(base, outputs + [o], files[o.path := Regular(o.contents)])
  {
    var next := files[o.path := Regular(o.contents)];
    forall d | d in outputs + [o] ensures d.path in next && next[d.path] == Regular(d.contents) {
      assert d in outputs ==> d.path in Paths(outputs);
    }
    forall p | p !in Paths(outputs + [o]) ensures Same(base, next, p) {
      AddedPath(outputs, o, p);
      assert Same(base, files, p);
    }
  }

  lemma WriteStep(base: Files, outputs: seq<Output>, i: nat, files: Files)
    requires Distinct(outputs) && i < |outputs| && Overlaid(base, outputs[..i], files) && Tree(files)
    requires Compatible(outputs[..i]) && forall o | o in outputs[..i] :: Writable(base, o.path)
    ensures Present(base, outputs) ==>
            outputs[i].path in files && files[outputs[i].path] == Regular(outputs[i].contents)
    ensures Writable(files, outputs[i].path) <==> Compatible(outputs[..i + 1]) && Writable(base, outputs[i].path)
    ensures Writable(files, outputs[i].path) ==>
      var next := files[outputs[i].path := Regular(outputs[i].contents)];
      Tree(next) && Overlaid(base, outputs[..i + 1], next)
  {
    var o, before := outputs[i], outputs[..i];
    assert outputs[..i + 1] == before + [o];
    assert o.path !in Paths(before);
    assert Same(base, files, o.path);
    WritableAfter(base, before, o, files);
    OverlayOne(base, before, o, files);
    NotItself(o.path);
  }

  lemma UnexpectedSplits(files: Files, owned: seq<Owned>, i: nat, expected: set<Path>)
    requires i < |owned|
    ensures Unexpected(files, owned[..i + 1], expected) ==
      Unexpected(files, owned[..i], expected) + set p | p in files.Keys && Matches(owned[i], p) && p !in expected
  {
    forall p ensures MatchesAny(owned[..i + 1], p) <==> MatchesAny(owned[..i], p) || Matches(owned[i], p) {
      if MatchesAny(owned[..i], p) {
        var k :| 0 <= k < i && Matches(owned[..i][k], p);
        assert Matches(owned[..i + 1][k], p);
      }
      if Matches(owned[i], p) { assert Matches(owned[..i + 1][i], p); }
      if MatchesAny(owned[..i + 1], p) {
        var k :| 0 <= k < i + 1 && Matches(owned[..i + 1][k], p);
        if k < i { assert Matches(owned[..i][k], p); }
      }
    }
  }

  lemma ObsoleteSplits(files: Files, roots: seq<Path>, i: nat, expected: set<Path>)
    requires i < |roots|
    ensures var done := Obsolete(files, roots[..i], expected);
      Obsolete(files, roots[..i + 1], expected) == done + Obsolete(files - done, [roots[i]], expected)
  {
    var last := [roots[i]];
    forall p ensures InRoots(roots[..i + 1], p) <==> InRoots(roots[..i], p) || InRoots(last, p) {
      assert roots[..i + 1] == roots[..i] + last;
      if InRoots(roots[..i], p) { var k :| 0 <= k < i && Under(roots[..i][k], p); assert Under(roots[..i + 1][k], p); }
      if InRoots(last, p) { assert Under(roots[..i + 1][i], p); }
      if InRoots(roots[..i + 1], p) {
        var k :| 0 <= k < i + 1 && Under(roots[..i + 1][k], p);
        if k < i { assert Under(roots[..i][k], p); } else { assert Under(last[0], p); }
      }
    }
  }
}
