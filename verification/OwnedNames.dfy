/** The names the generators own, written out, and what `check` asks of a tree in terms of them. */
module OwnedNames {
  import opened Generation
  import opened Inventory

  /** Below one of the three directories of the protocol generator. */
  predicate ProtocolFile(p: Path) {
    || "crates/eutheto-solver-ortools/src/generated/" <= p
    || "protocol/generated/" <= p
    || "protocol/golden/" <= p
  }

  lemma JoinedPrefix(directory: Path, name: string, p: Path)
    ensures Under(directory, p) && name <= p[|directory| + 1..] <==> directory + "/" + name <= p
  {
    var front := directory + "/";
    if Under(directory, p) {
      assert p == front + p[|front|..];
      if name <= p[|front|..] { assert p[|front|..] == name + p[|front|..][|name|..]; }
    }
    if front + name <= p {
      assert p[..|front|] == front;
      assert p[|front|..][..|name|] == name;
    }
  }

  lemma RootsSpelled(p: Path)
    ensures InRoots(OWNED_PROTOCOL_ROOTS, p) <==> ProtocolFile(p)
  {
    var roots := OWNED_PROTOCOL_ROOTS;
    assert roots[0] + "/" == "crates/eutheto-solver-ortools/src/generated/";
    assert roots[1] + "/" == "protocol/generated/";
    assert roots[2] + "/" == "protocol/golden/";
  }

  /** A file of the pack generator: a directory, and how the names in it begin. */
  predicate PackName(directory: Path, name: string) {
    || (directory == "schemas/generated" && name in ["official-test.", "workforce."])
    || (directory == "xtask/generated" && name in ["official-test-", "workforce-"])
    || (directory == "docs/generated" && name in ["official-test-pack-contract", "workforce-pack-contract"])
    || (directory == "crates/eutheto-command/src" && name == "generated_official_test_pack_contract")
    || (directory == "domains/workforce/core/src" && name == "generated_workforce_pack_contract")
    || (directory == "apps/desktop/src/api" && name == "generated-domain-pack-contracts")
  }

  ghost predicate Listed(directory: Path, name: string) {
    exists i | 0 <= i < |OWNED_PREFIXES| :: ListedAt(i, directory, name)
  }

  predicate ListedAt(i: nat, directory: Path, name: string)
    requires i < |OWNED_PREFIXES|
  {
    OWNED_PREFIXES[i].directory == directory && name in OWNED_PREFIXES[i].prefixes
  }

  lemma PackNamesSpelled(directory: Path, name: string)
    ensures PackName(directory, name) <==> Listed(directory, name)
  {
    assert |OWNED_PREFIXES| == 6;
    assert PackName(directory, name) <==>
           || ListedAt(0, directory, name) || ListedAt(1, directory, name) || ListedAt(2, directory, name)
           || ListedAt(3, directory, name) || ListedAt(4, directory, name) || ListedAt(5, directory, name);
  }

  function Joined(directory: Path, name: string): Path { directory + "/" + name }

  ghost predicate PackFile(p: Path) {
    exists directory, name | PackName(directory, name) :: Joined(directory, name) <= p
  }

  lemma MatchesSpelled(i: nat, p: Path)
    requires i < |OWNED_PREFIXES|
    ensures Matches(OWNED_PREFIXES[i], p) <==>
            var directory := OWNED_PREFIXES[i].directory;
            exists name | ListedAt(i, directory, name) :: Joined(directory, name) <= p
  {
    var o := OWNED_PREFIXES[i];
    if Matches(o, p) {
      var j :| 0 <= j < |o.prefixes| && o.prefixes[j] <= p[|o.directory| + 1..];
      JoinedPrefix(o.directory, o.prefixes[j], p);
      assert ListedAt(i, o.directory, o.prefixes[j]);
    }
    forall name | ListedAt(i, o.directory, name) && Joined(o.directory, name) <= p ensures Matches(o, p) {
      JoinedPrefix(o.directory, name, p);
    }
  }

  /** The pack generator owns exactly the files with one of its names. */
  lemma OwnedSpelled(p: Path)
    ensures MatchesAny(OWNED_PREFIXES, p) <==> PackFile(p)
  {
    if MatchesAny(OWNED_PREFIXES, p) {
      var i :| 0 <= i < |OWNED_PREFIXES| && Matches(OWNED_PREFIXES[i], p);
      MatchesSpelled(i, p);
      var directory := OWNED_PREFIXES[i].directory;
      var name :| ListedAt(i, directory, name) && Joined(directory, name) <= p;
      PackNamesSpelled(directory, name);
    }
    if PackFile(p) {
      var directory, name :| PackName(directory, name) && Joined(directory, name) <= p;
      PackNamesSpelled(directory, name);
      var i :| 0 <= i < |OWNED_PREFIXES| && ListedAt(i, directory, name);
      MatchesSpelled(i, p);
    }
  }

  /** Such a name is that of a regular file, directly in its directory. */
  ghost predicate Plain(files: Files, p: Path)
    requires p in files
  {
    forall directory, name | PackName(directory, name) && Joined(directory, name) <= p ::
      files[p].Regular? && '/' !in p[|directory| + 1..]
  }

  ghost predicate Regularly(files: Files, p: Path, owned: seq<Owned>)
    requires p in files
  {
    forall i | 0 <= i < |owned| && Matches(owned[i], p) :: !Odd(owned[i], p, files[p])
  }

  lemma CleanSpelled(files: Files)
    ensures Clean(files, OWNED_PREFIXES) <==> forall p | p in files :: Plain(files, p)
  {
    forall p | p in files
      ensures Plain(files, p) <==> Regularly(files, p, OWNED_PREFIXES)
    {
      PlainSpelled(files, p);
    }
  }

  lemma PlainSpelled(files: Files, p: Path)
    requires p in files
    ensures Plain(files, p) <==> Regularly(files, p, OWNED_PREFIXES)
  {
    if Plain(files, p) {
      forall i | 0 <= i < |OWNED_PREFIXES| && Matches(OWNED_PREFIXES[i], p)
        ensures !Odd(OWNED_PREFIXES[i], p, files[p])
      {
        MatchesSpelled(i, p);
        var directory := OWNED_PREFIXES[i].directory;
        var name :| ListedAt(i, directory, name) && Joined(directory, name) <= p;
        PackNamesSpelled(directory, name);
      }
    } else {
      var directory, name :| PackName(directory, name) && Joined(directory, name) <= p
                             && !(files[p].Regular? && '/' !in p[|directory| + 1..]);
      PackNamesSpelled(directory, name);
      var i :| 0 <= i < |OWNED_PREFIXES| && ListedAt(i, directory, name);
      MatchesSpelled(i, p);
    }
  }

  ghost predicate ProtocolFilesAmong(files: Files, expected: set<Path>) {
    forall p | p in files && files[p].Regular? && ProtocolFile(p) :: p in expected
  }

  ghost predicate PackFilesAmong(files: Files, expected: set<Path>) {
    forall p | p in files && PackFile(p) :: p in expected
  }

  lemma ObsoleteSpelled(files: Files, expected: set<Path>)
    ensures Obsolete(files, OWNED_PROTOCOL_ROOTS, expected) == {} <==> ProtocolFilesAmong(files, expected)
  {
    var obsolete := Obsolete(files, OWNED_PROTOCOL_ROOTS, expected);
    forall p ensures p in obsolete <==> p in files && files[p].Regular? && ProtocolFile(p) && p !in expected {
      RootsSpelled(p);
    }
    if ProtocolFilesAmong(files, expected) { assert forall p :: p !in obsolete; }
  }

  lemma UnexpectedSpelled(files: Files, expected: set<Path>)
    ensures Unexpected(files, OWNED_PREFIXES, expected) == {} <==> PackFilesAmong(files, expected)
  {
    var unexpected := Unexpected(files, OWNED_PREFIXES, expected);
    forall p ensures p in unexpected <==> p in files && PackFile(p) && p !in expected { OwnedSpelled(p); }
    if PackFilesAmong(files, expected) { assert forall p :: p !in unexpected; }
  }

  /**
   `check` accepts a tree exactly when every output is in place byte for byte, every regular file below a protocol
   directory is an output, and every entry with a pack name is an output and a plain file.
   */
  lemma ConvergedSpelled(files: Files, outputs: seq<Output>)
    ensures Converged(files, outputs) <==>
            && (forall o | o in outputs :: o.path in files && files[o.path] == Regular(o.contents))
            && ProtocolFilesAmong(files, Paths(outputs))
            && PackFilesAmong(files, Paths(outputs))
            && (forall p | p in files :: Plain(files, p))
  {
    CleanSpelled(files);
    ObsoleteSpelled(files, Paths(outputs));
    UnexpectedSpelled(files, Paths(outputs));
  }

  /** `generate` removes exactly the owned entries it does not produce; below a protocol directory only regular ones. */
  lemma KeptSpelled(files: Files, outputs: seq<Output>, p: Path)
    ensures p in Kept(files, outputs) <==>
            && p in files
            && (p in Paths(outputs) || !(PackFile(p) || (ProtocolFile(p) && files[p].Regular?)))
    ensures p in Kept(files, outputs) ==> Kept(files, outputs)[p] == files[p]
  {
    RootsSpelled(p);
    OwnedSpelled(p);
  }
}
