/** The list of generated files: sorted by path, and refused when two generators own one path. */
module Inventory {
  import opened Octets
  import opened Options

  type Path = string

  datatype Output = Output(path: Path, contents: Bytes)

  /** Code point order of strings, which is also the byte order of their UTF-8 forms. */
  predicate AtMost(a: Path, b: Path) {
    a == "" || (b != "" && (a[0] < b[0] || (a[0] == b[0] && AtMost(a[1..], b[1..]))))
  }

  lemma {:induction false} Total(a: Path, b: Path)
    ensures AtMost(a, b) || AtMost(b, a)
  {
    if a == "" || b == "" {
    } else {
      Total(a[1..], b[1..]);
    }
  }

  lemma {:induction false} Antisymmetric(a: Path, b: Path)
    requires AtMost(a, b) && AtMost(b, a)
    ensures a == b
  {
    if a == "" || b == "" {
    } else {
      Antisymmetric(a[1..], b[1..]);
      assert a == [a[0]] + a[1..] && b == [b[0]] + b[1..];
    }
  }

  lemma {:induction false} Transitive(a: Path, b: Path, c: Path)
    requires AtMost(a, b) && AtMost(b, c)
    ensures AtMost(a, c)
  {
    if a != "" && a[0] == b[0] == c[0] { Transitive(a[1..], b[1..], c[1..]); }
  }

  /** Equal up to a place where the first ends or is smaller. */
  predicate PartsAt(a: Path, b: Path, i: nat) {
    i <= |a| && i <= |b| && a[..i] == b[..i] && (i == |a| || (i < |b| && a[i] < b[i]))
  }

  /** The first is a prefix of the second, or smaller where they first differ. */
  ghost predicate Before(a: Path, b: Path) { exists i: nat :: PartsAt(a, b, i) }

  lemma {:induction false} OrderSpelled(a: Path, b: Path)
    ensures AtMost(a, b) <==> Before(a, b)
  {
    if a == "" || b == "" {
      assert PartsAt(a, b, 0) <==> a == "";
    } else {
      OrderSpelled(a[1..], b[1..]);
      BeforeFirst(a, b);
    }
  }

  lemma PartsLater(a: Path, b: Path, i: nat)
    requires a != "" && b != "" && i > 0
    ensures PartsAt(a, b, i) <==> a[0] == b[0] && PartsAt(a[1..], b[1..], i - 1)
  {
    if i <= |a| && i <= |b| {
      assert a[..i] == [a[0]] + a[1..][..i - 1];
      assert b[..i] == [b[0]] + b[1..][..i - 1];
      if a[..i] == b[..i] {
        assert a[..i][0] == b[..i][0];
        assert a[..i][1..] == b[..i][1..];
      }
    }
  }

  lemma BeforeFirst(a: Path, b: Path)
    requires a != "" && b != ""
    ensures Before(a, b) <==> a[0] < b[0] || (a[0] == b[0] && Before(a[1..], b[1..]))
  {
    assert a[..0] == b[..0];
    assert PartsAt(a, b, 0) <==> a[0] < b[0];
    if Before(a, b) {
      var i: nat :| PartsAt(a, b, i);
      if i > 0 { PartsLater(a, b, i); }
    }
    if a[0] == b[0] && Before(a[1..], b[1..]) {
      var i: nat :| PartsAt(a[1..], b[1..], i);
      PartsLater(a, b, i + 1);
    }
  }

  predicate Sorted(files: seq<Output>) {
    forall i, j | 0 <= i < j < |files| :: AtMost(files[i].path, files[j].path)
  }

  /** Inserts before the first file that is not smaller, so files of one path keep their order. */
  function Insert(f: Output, files: seq<Output>): seq<Output> {
    if files == [] then [f]
    else if AtMost(f.path, files[0].path) then [f] + files
    else [files[0]] + Insert(f, files[1..])
  }

  function Arrange(files: seq<Output>): seq<Output> {
    if files == [] then [] else Insert(files[0], Arrange(files[1..]))
  }

  lemma {:induction false} InsertSorts(f: Output, files: seq<Output>)
    requires Sorted(files)
    ensures Sorted(Insert(f, files)) && multiset(Insert(f, files)) == multiset(files) + multiset{f}
  {
    if files == [] {
    } else if AtMost(f.path, files[0].path) {
      forall j | 0 <= j < |files| ensures AtMost(f.path, files[j].path) {
        if j > 0 { Transitive(f.path, files[0].path, files[j].path); }
      }
    } else {
      assert files == [files[0]] + files[1..];
      InsertSorts(f, files[1..]);
      Total(f.path, files[0].path);
      var rest := Insert(f, files[1..]);
      forall j | 0 <= j < |rest| ensures AtMost(files[0].path, rest[j].path) {
        assert rest[j] in multiset(rest);
        assert rest[j] == f || rest[j] in files[1..];
      }
    }
  }

  lemma {:induction false} ArrangeSorts(files: seq<Output>)
    ensures Sorted(Arrange(files)) && multiset(Arrange(files)) == multiset(files)
  {
    if files == [] {
    } else {
      assert files == [files[0]] + files[1..];
      ArrangeSorts(files[1..]);
      InsertSorts(files[0], Arrange(files[1..]));
    }
  }

  predicate Distinct(files: seq<Output>) {
    forall i, j | 0 <= i < j < |files| :: files[i].path != files[j].path
  }

  /** In a sorted list a repeated path is repeated side by side. */
  lemma AdjacentSuffices(files: seq<Output>)
    requires Sorted(files) && forall i | 0 <= i < |files| - 1 :: files[i].path != files[i + 1].path
    ensures Distinct(files)
  {
    forall i, j | 0 <= i < j < |files| ensures files[i].path != files[j].path {
      if files[i].path == files[j].path {
        assert AtMost(files[i].path, files[i + 1].path);
        if i + 1 < j { assert AtMost(files[i + 1].path, files[j].path); }
        Antisymmetric(files[i].path, files[i + 1].path);
        assert false;
      }
    }
  }

  method EnsureUnique(files: seq<Output>) returns (ok: bool)
    requires Sorted(files)
    ensures ok <==> Distinct(files)
  {
    var i := 0;
    while i + 1 < |files|
      invariant forall k | 0 <= k < i && k + 1 < |files| :: files[k].path != files[k + 1].path
    {
      if files[i].path == files[i + 1].path { return false; }
      i := i + 1;
    }
    AdjacentSuffices(files);
    return true;
  }

  /** How often a path occurs. */
  function Owners(files: seq<Output>, path: Path): nat {
    if files == [] then 0 else (if files[0].path == path then 1 else 0) + Owners(files[1..], path)
  }

  lemma {:induction false} OwnersOfInsert(f: Output, files: seq<Output>, path: Path)
    ensures Owners(Insert(f, files), path) == Owners([f] + files, path)
  {
    if files == [] {
      assert [f] + files == [f];
    } else if AtMost(f.path, files[0].path) {
    } else {
      OwnersOfInsert(f, files[1..], path);
      assert ([f] + files[1..])[1..] == files[1..] && ([f] + files)[1..] == files;
    }
  }

  lemma {:induction false} OwnersOfArrange(files: seq<Output>, path: Path)
    ensures Owners(Arrange(files), path) == Owners(files, path)
  {
    if files == [] {
    } else {
      OwnersOfArrange(files[1..], path);
      OwnersOfInsert(files[0], Arrange(files[1..]), path);
      assert ([files[0]] + Arrange(files[1..]))[1..] == Arrange(files[1..]);
    }
  }

  lemma {:induction false} Owner(files: seq<Output>, path: Path)
    requires Owners(files, path) > 0
    ensures exists i | 0 <= i < |files| :: files[i].path == path
  {
    if files[0].path == path {
    } else {
      Owner(files[1..], path);
      var i :| 0 <= i < |files[1..]| && files[1..][i].path == path;
      assert files[i + 1].path == path;
    }
  }

  lemma {:induction false} Occurs(files: seq<Output>, i: nat)
    requires i < |files|
    ensures Owners(files, files[i].path) > 0
  {
    if i == 0 {
    } else {
      Occurs(files[1..], i - 1);
    }
  }

  ghost predicate OwnedOnce(files: seq<Output>) { forall path :: Owners(files, path) <= 1 }

  lemma {:induction false} DistinctOwners(files: seq<Output>, path: Path)
    requires Distinct(files)
    ensures Owners(files, path) <= 1
  {
    if files == [] {
    } else {
      DistinctOwners(files[1..], path);
      if Owners(files[1..], path) > 0 { Owner(files[1..], path); }
    }
  }

  lemma {:induction false} OwnersDistinct(files: seq<Output>)
    requires OwnedOnce(files)
    ensures Distinct(files)
  {
    if files == [] {
    } else {
      forall path ensures Owners(files[1..], path) <= 1 { assert Owners(files, path) <= 1; }
      OwnersDistinct(files[1..]);
      forall j | 0 < j < |files| ensures files[0].path != files[j].path {
        Occurs(files[1..], j - 1);
        assert Owners(files, files[0].path) <= 1;
      }
      forall i, j | 0 < i < j < |files| ensures files[i].path != files[j].path {
        assert files[1..][i - 1].path != files[1..][j - 1].path;
      }
    }
  }

  /** Succeeds exactly when no path has two owners, and then lists the same files in order. */
  method AllGenerated(produced: seq<Output>) returns (files: Option<seq<Output>>)
    ensures files.Some? <==> OwnedOnce(produced)
    ensures files.Some? ==>
      Sorted(files.value) && Distinct(files.value) && multiset(files.value) == multiset(produced)
  {
    var arranged := Arrange(produced);
    ArrangeSorts(produced);
    var ok := EnsureUnique(arranged);
    forall path ensures Owners(arranged, path) == Owners(produced, path) { OwnersOfArrange(produced, path); }
    if ok {
      forall path ensures Owners(arranged, path) <= 1 { DistinctOwners(arranged, path); }
      return Some(arranged);
    }
    if OwnedOnce(arranged) { OwnersDistinct(arranged); }
    return None;
  }
}
