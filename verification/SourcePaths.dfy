/** Where the generators put their outputs, and why `generate` followed by `check` succeeds for those places. */
module SourcePaths {
  import opened Generation
  import opened Inventory

  /** The directories of all generated files; inside them every output is a plain file name. */
  const DIRECTORIES: seq<Path> := [
    "apps/desktop/src/api",
    "apps/desktop/src-tauri/src",
    "crates/eutheto-command/src",
    "crates/eutheto-export/src/generated",
    "crates/eutheto-protocol/src/generated",
    "crates/eutheto-solver-api/src",
    "crates/eutheto-solver-ortools/src/generated",
    "docs/generated",
    "domains/workforce/core/src",
    "protocol/generated",
    "protocol/generated/cpp",
    "protocol/golden",
    "schemas/generated",
    "tests/migration/fixtures",
    "workers/ortools",
    "xtask/generated"
  ]

  predicate Placed(directory: Path, p: Path) {
    directory + "/" <= p && '/' !in p[|directory| + 1..]
  }

  predicate FromSource(p: Path) { exists i | 0 <= i < |DIRECTORIES| :: Placed(DIRECTORIES[i], p) }

  /** The two paths differ at a place both have. */
  predicate Apart(a: Path, b: Path, k: nat) { k < |a| && k < |b| && a[k] != b[k] }

  lemma ApartNotUnder(a: Path, b: Path, k: nat)
    requires Apart(a, b, k)
    ensures !Under(a, b)
  {
    assert (a + "/")[k] == a[k];
  }

  lemma NotLonger(a: Path, b: Path)
    requires |b| <= |a|
    ensures !Under(a, b)
  {
    assert |a + "/"| > |b|;
  }

  /** A plain name below a directory is flat for an owned directory that is not above it. */
  lemma PlainName(owned: Path, directory: Path, p: Path)
    requires Placed(directory, p) && !Under(owned, directory) && Under(owned, p)
    ensures '/' !in p[|owned| + 1..]
  {
    assert directory == p[..|directory|];
    assert owned + "/" == p[..|owned| + 1];
    assert p[|owned|] == '/';
  }

  /** The owned directory lies above no directory of outputs. */
  ghost predicate Clear(owned: Path) { forall i | 0 <= i < |DIRECTORIES| :: !Under(owned, DIRECTORIES[i]) }

  /** Every directory that is longer than an owned one differs from it at the given place. */
  lemma ClearByLetters(owned: Path, at: seq<nat>)
    requires |at| == |DIRECTORIES|
    requires forall i | 0 <= i < |at| :: |DIRECTORIES[i]| <= |owned| || Apart(owned, DIRECTORIES[i], at[i])
    ensures Clear(owned)
  {
    forall i | 0 <= i < |DIRECTORIES| ensures !Under(owned, DIRECTORIES[i]) {
      if |DIRECTORIES[i]| <= |owned| {
        NotLonger(owned, DIRECTORIES[i]);
      } else {
        ApartNotUnder(owned, DIRECTORIES[i], at[i]);
      }
    }
  }

  lemma SchemasClear()
    ensures Clear("schemas/generated")
  {
    ClearByLetters("schemas/generated", [0, 0, 0, 0, 0, 0, 0, 0, 0, 0, 0, 0, 0, 0, 0, 0]);
  }

  lemma ToolsClear()
    ensures Clear("xtask/generated")
  {
    ClearByLetters("xtask/generated", [0, 0, 0, 0, 0, 0, 0, 0, 0, 0, 0, 0, 0, 0, 0, 0]);
  }

  lemma DocsClear()
    ensures Clear("docs/generated")
  {
    ClearByLetters("docs/generated", [0, 0, 0, 0, 0, 0, 0, 0, 2, 0, 0, 0, 0, 0, 0, 0]);
  }

  lemma CommandsClear()
    ensures Clear("crates/eutheto-command/src")
  {
    ClearByLetters("crates/eutheto-command/src", [0, 0, 0, 15, 15, 15, 15, 0, 0, 0, 0, 0, 0, 0, 0, 0]);
  }

  lemma WorkforceClear()
    ensures Clear("domains/workforce/core/src")
  {
    ClearByLetters("domains/workforce/core/src", [0, 0, 0, 0, 0, 0, 0, 0, 0, 0, 0, 0, 0, 0, 0, 0]);
  }

  lemma DesktopClear()
    ensures Clear("apps/desktop/src/api")
  {
    ClearByLetters("apps/desktop/src/api", [0, 16, 0, 0, 0, 0, 0, 0, 0, 0, 0, 0, 0, 0, 0, 0]);
  }

  lemma OwnedAreClear(i: nat)
    requires i < |OWNED_PREFIXES|
    ensures Clear(OWNED_PREFIXES[i].directory)
  {
    match i
    case 0 => SchemasClear();
    case 1 => ToolsClear();
    case 2 => DocsClear();
    case 3 => CommandsClear();
    case 4 => WorkforceClear();
    case 5 => DesktopClear();
  }

  /** Outputs in the generators' own places are flat. */
  lemma SourcePathsFlat(outputs: seq<Output>)
    requires forall o | o in outputs :: FromSource(o.path)
    ensures Flat(outputs, OWNED_PREFIXES)
  {
    forall i, o | 0 <= i < |OWNED_PREFIXES| && o in outputs && Matches(OWNED_PREFIXES[i], o.path)
      ensures '/' !in o.path[|OWNED_PREFIXES[i].directory| + 1..]
    {
      OwnedAreClear(i);
      var d :| 0 <= d < |DIRECTORIES| && Placed(DIRECTORIES[d], o.path);
      PlainName(OWNED_PREFIXES[i].directory, DIRECTORIES[d], o.path);
    }
  }

  /** What a successful `generate` leaves is what `check` accepts, for outputs in those places. */
  lemma SourceConverges(files: Files, outputs: seq<Output>, files': Files)
    requires forall o | o in outputs :: FromSource(o.path)
    requires Overlaid(Kept(files, outputs), outputs, files')
    ensures Converged(files', outputs)
  {
    SourcePathsFlat(outputs);
    Reached(files, outputs, files');
  }
}
