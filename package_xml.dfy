/**
  The package manifest (`package.xml`) of the Salesforce Metadata API, as the
  plugin writes it: an XML declaration, the `<Package>` root, an optional
  `<fullName>`, one `<types>` block per package key with its members and its
  resolved type name, then `<version>`. Nothing is escaped.
*/
module PackageXml {
  import opened Wrappers
  import opened Strings
  import opened Metadata

  /** One key of the Grunt task's `pkg` object with the member names listed under it. */
  datatype PkgEntry = PkgEntry(key: string, members: seq<string>)

  /** The fatal outcome: a package key that resolves to no metadata type. */
  datatype BuildError = InvalidType(key: string)

  function ErrorMessage(e: BuildError): string {
    e.key + " is not a valid metadata type"
  }

  const XmlDecl: string := "<?xml version=\"1.0\" encoding=\"UTF-8\"?>"
  /** The XML namespace of the Metadata API. */
  const MetadataNamespace: string := "http://soap.sforce.com/2006/04/metadata"
  const PackageOpen: string := "<Package xmlns=\"" + MetadataNamespace + "\">"
  const TypesOpen: string := "    <types>"
  const TypesClose: string := "    </types>"
  const PackageClose: string := "</Package>"
  const FullNamePrefix: string := "    <fullName>"

  function FullNameLine(pkgName: string): string { FullNamePrefix + pkgName + "</fullName>" }
  function MemberLine(member: string): string { "        <members>" + member + "</members>" }
  function NameLine(typeName: string): string { "        <name>" + typeName + "</name>" }
  function VersionLine(version: string): string { "    <version>" + version + "</version>" }

  /** A line that opens with the `<fullName>` element. */
  predicate IsFullNameLine(line: string) {
    |line| >= |FullNamePrefix| && line[..|FullNamePrefix|] == FullNamePrefix
  }

  /** Every package key can be looked up (its alias target, if any, is in the registry). */
  predicate Resolvable(reg: Registry, pkg: seq<PkgEntry>) {
    forall i :: 0 <= i < |pkg| ==> CanLookup(reg, Lower(pkg[i].key))
  }

  /** The key of `e` resolves to a truthy type name. */
  predicate Resolves(reg: Registry, e: PkgEntry)
    requires CanLookup(reg, Lower(e.key))
  {
    Truthy(Lookup(reg, e.key))
  }

  /** The lines before the first `<types>` block. An empty `pkgName` stands for every falsy one. */
  function Header(pkgName: string): seq<string> {
    [XmlDecl, PackageOpen] + (if pkgName != "" then [FullNameLine(pkgName)] else [])
  }

  function Footer(version: string): seq<string> {
    [VersionLine(version), PackageClose]
  }

  function MemberLines(members: seq<string>): seq<string> {
    seq(|members|, i requires 0 <= i < |members| => MemberLine(members[i]))
  }

  /** The `<types>` block of one package key. */
  function TypesBlock(members: seq<string>, typeName: string): seq<string> {
    [TypesOpen] + MemberLines(members) + [NameLine(typeName), TypesClose]
  }

  /** The number of lines a package key contributes. */
  function BlockSize(e: PkgEntry): nat {
    |e.members| + 3
  }

  function TotalSize(pkg: seq<PkgEntry>): nat {
    if pkg == [] then 0 else TotalSize(pkg[..|pkg| - 1]) + BlockSize(pkg[|pkg| - 1])
  }

  /** The `<types>` blocks of the keys in order, or the first key that fails to resolve. */
  function Blocks(reg: Registry, pkg: seq<PkgEntry>): Result<seq<string>, BuildError>
    requires Resolvable(reg, pkg)
  {
    if pkg == [] then Success([])
    else
      var last := pkg[|pkg| - 1];
      match Blocks(reg, pkg[..|pkg| - 1])
      case Failure(e) => Failure(e)
      case Success(lines) =>
        if !Resolves(reg, last) then Failure(InvalidType(last.key))
        else Success(lines + TypesBlock(last.members, Lookup(reg, last.key).value))
  }

  /** The manifest's lines, or the fatal error. */
  function ManifestLines(reg: Registry, pkg: seq<PkgEntry>, pkgName: string, version: string)
    : Result<seq<string>, BuildError>
    requires Resolvable(reg, pkg)
  {
    match Blocks(reg, pkg)
    case Failure(e) => Failure(e)
    case Success(blocks) => Success(Header(pkgName) + blocks + Footer(version))
  }

  /** `buildPackageXml(pkg, pkgName, version)`: the lines joined with newlines. */
  function Manifest(reg: Registry, pkg: seq<PkgEntry>, pkgName: string, version: string)
    : Result<string, BuildError>
    requires Resolvable(reg, pkg)
  {
    match ManifestLines(reg, pkg, pkgName, version)
    case Failure(e) => Failure(e)
    case Success(lines) => Success(Join(lines, '\n'))
  }

  /**
    `buildPackageXml` as the source runs it: lines pushed onto an array in
    nested loops, aborting at the first key that does not resolve.
  */
  method BuildPackageXml(reg: Registry, pkg: seq<PkgEntry>, pkgName: string, version: string)
    returns (r: Result<string, BuildError>)
    requires Resolvable(reg, pkg)
    ensures r == Manifest(reg, pkg, pkgName, version)
  {
    var packageXml := [XmlDecl, PackageOpen];
    if pkgName != "" {
      packageXml := packageXml + [FullNameLine(pkgName)];
    }
    for i := 0 to |pkg|
      invariant Blocks(reg, pkg[..i]).Success?
      invariant packageXml == Header(pkgName) + Blocks(reg, pkg[..i]).value
    {
      var members := pkg[i].members;
      var typeName := LookupMetadata(reg, pkg[i].key);
      if !(typeName.Some? && typeName.value != "") {
        BlocksExtend(reg, pkg, i);
        BlocksFailureSticks(reg, pkg, i + 1);
        return Failure(InvalidType(pkg[i].key));
      }
      ghost var done := Blocks(reg, pkg[..i]).value;
      packageXml := AppendTypesBlock(packageXml, members, typeName.value);
      BlocksExtend(reg, pkg, i);
      assert Blocks(reg, pkg[..i + 1]).value == done + TypesBlock(members, typeName.value);
    }
    assert pkg[..|pkg|] == pkg;
    packageXml := packageXml + [VersionLine(version), PackageClose];
    r := Success(Join(packageXml, '\n'));
  }

  /** The inner loop of `buildPackageXml`: one `<types>` block pushed line by line. */
  method AppendTypesBlock(lines: seq<string>, members: seq<string>, typeName: string)
    returns (out: seq<string>)
    ensures out == lines + TypesBlock(members, typeName)
  {
    out := lines + [TypesOpen];
    for j := 0 to |members|
      invariant out == lines + [TypesOpen] + MemberLines(members[..j])
    {
      MemberLinesExtend(members, j);
      out := out + [MemberLine(members[j])];
    }
    assert members[..|members|] == members;
    out := out + [NameLine(typeName), TypesClose];
  }

  // ---------------------------------------------------------------------------
  // Lemmas about the blocks
  // ---------------------------------------------------------------------------

  lemma MemberLinesExtend(members: seq<string>, j: nat)
    requires j < |members|
    ensures MemberLines(members[..j + 1]) == MemberLines(members[..j]) + [MemberLine(members[j])]
  {
  }

  /** The blocks of one more key: its own block appended, or the failure naming it. */
  lemma BlocksExtend(reg: Registry, pkg: seq<PkgEntry>, i: nat)
    requires Resolvable(reg, pkg) && i < |pkg|
    requires Blocks(reg, pkg[..i]).Success?
    ensures Blocks(reg, pkg[..i + 1]) ==
      if Resolves(reg, pkg[i]) then Success(Blocks(reg, pkg[..i]).value + TypesBlock(pkg[i].members, Lookup(reg, pkg[i].key).value))
      else Failure(InvalidType(pkg[i].key))
  {
    assert pkg[..i + 1][..i] == pkg[..i];
  }

  /** Once a prefix of the package fails, the whole package fails with the same key. */
  lemma {:induction false} BlocksFailureSticks(reg: Registry, pkg: seq<PkgEntry>, n: nat)
    requires Resolvable(reg, pkg) && n <= |pkg|
    requires Blocks(reg, pkg[..n]).Failure?
    ensures Blocks(reg, pkg) == Blocks(reg, pkg[..n])
    decreases |pkg| - n
  {
    if n < |pkg| {
      var init := pkg[..|pkg| - 1];
      assert init[..n] == pkg[..n];
      BlocksFailureSticks(reg, init, n);
    } else {
      assert pkg[..n] == pkg;
    }
  }

  /**
    The build succeeds exactly when every key resolves; otherwise it fails
    naming the first key that does not.
  */
  lemma {:induction false} BlocksOutcome(reg: Registry, pkg: seq<PkgEntry>)
    requires Resolvable(reg, pkg)
    ensures Blocks(reg, pkg).Success? <==> forall i :: 0 <= i < |pkg| ==> Resolves(reg, pkg[i])
    ensures forall i :: 0 <= i < |pkg| && !Resolves(reg, pkg[i])
                        && (forall j :: 0 <= j < i ==> Resolves(reg, pkg[j]))
                        ==> Blocks(reg, pkg) == Failure(InvalidType(pkg[i].key))
    ensures Blocks(reg, pkg).Success? ==> |Blocks(reg, pkg).value| == TotalSize(pkg)
  {
    if pkg != [] {
      var init := pkg[..|pkg| - 1];
      assert forall i :: 0 <= i < |init| ==> init[i] == pkg[i];
      BlocksOutcome(reg, init);
    }
  }

  /** Each key's `<types>` block sits right after the blocks of the keys before it. */
  lemma {:induction false} BlockAt(reg: Registry, pkg: seq<PkgEntry>, i: nat)
    requires Resolvable(reg, pkg) && Blocks(reg, pkg).Success?
    requires i < |pkg|
    ensures Resolves(reg, pkg[i])
    ensures var off := TotalSize(pkg[..i]);
      && off + BlockSize(pkg[i]) <= |Blocks(reg, pkg).value|
      && Blocks(reg, pkg).value[off..off + BlockSize(pkg[i])]
         == TypesBlock(pkg[i].members, Lookup(reg, pkg[i].key).value)
  {
    var init := pkg[..|pkg| - 1];
    var blocks := Blocks(reg, pkg).value;
    BlocksOutcome(reg, init);
    if i == |pkg| - 1 {
      assert pkg[..i] == init;
    } else {
      assert pkg[..i] == init[..i];
      BlockAt(reg, init, i);
      assert blocks[..|Blocks(reg, init).value|] == Blocks(reg, init).value;
    }
  }

  // ---------------------------------------------------------------------------
  // Lemmas about the manifest
  // ---------------------------------------------------------------------------

  /** The manifest is built exactly when every package key resolves. */
  lemma ManifestOutcome(reg: Registry, pkg: seq<PkgEntry>, pkgName: string, version: string)
    requires Resolvable(reg, pkg)
    ensures Manifest(reg, pkg, pkgName, version).Success?
            <==> forall i :: 0 <= i < |pkg| ==> Resolves(reg, pkg[i])
    ensures forall i :: 0 <= i < |pkg| && !Resolves(reg, pkg[i])
                        && (forall j :: 0 <= j < i ==> Resolves(reg, pkg[j]))
                        ==> Manifest(reg, pkg, pkgName, version) == Failure(InvalidType(pkg[i].key))
  {
    BlocksOutcome(reg, pkg);
  }

  /**
    The frame of every manifest: the declaration and root first, a
    `<fullName>` line next exactly when a package name is given, `<version>`
    and the closing root last, and 4 lines plus the name plus
    |members| + 3 per key in all.
  */
  lemma ManifestFrame(reg: Registry, pkg: seq<PkgEntry>, pkgName: string, version: string)
    requires Resolvable(reg, pkg)
    requires ManifestLines(reg, pkg, pkgName, version).Success?
    ensures var lines := ManifestLines(reg, pkg, pkgName, version).value;
      && |lines| == 4 + (if pkgName != "" then 1 else 0) + TotalSize(pkg)
      && lines[0] == XmlDecl && lines[1] == PackageOpen
      && (pkgName != "" <==> IsFullNameLine(lines[2]))
      && (pkgName != "" ==> lines[2] == FullNameLine(pkgName))
      && lines[|lines| - 2] == VersionLine(version) && lines[|lines| - 1] == PackageClose
  {
    var lines := ManifestLines(reg, pkg, pkgName, version).value;
    var blocks := Blocks(reg, pkg).value;
    BlocksOutcome(reg, pkg);
    if pkgName != "" {
      assert lines[2] == FullNameLine(pkgName);
      assert FullNameLine(pkgName)[..|FullNamePrefix|] == FullNamePrefix;
    } else if pkg == [] {
      assert lines[2] == VersionLine(version);
      assert VersionLine(version)[5] != FullNamePrefix[5];
    } else {
      BlockAt(reg, pkg, 0);
      assert pkg[..0] == [];
      assert TotalSize(pkg[..0]) == 0;
      var tb := TypesBlock(pkg[0].members, Lookup(reg, pkg[0].key).value);
      assert blocks[..BlockSize(pkg[0])] == tb;
      assert tb[0] == TypesOpen;
      assert blocks[0] == blocks[..BlockSize(pkg[0])][0];
      assert lines == Header(pkgName) + blocks + Footer(version);
      assert |Header(pkgName)| == 2;
      assert lines[2] == blocks[0];
    }
  }

  /**
    Each package key, in order, has its block of the manifest: `<types>`, one
    `<members>` line per member in the given order, `<name>` with the
    resolved type, `</types>`.
  */
  lemma ManifestBlock(reg: Registry, pkg: seq<PkgEntry>, pkgName: string, version: string, i: nat)
    requires Resolvable(reg, pkg)
    requires ManifestLines(reg, pkg, pkgName, version).Success?
    requires i < |pkg|
    ensures Resolves(reg, pkg[i])
    ensures var lines := ManifestLines(reg, pkg, pkgName, version).value;
      var off := |Header(pkgName)| + TotalSize(pkg[..i]);
      && off + BlockSize(pkg[i]) <= |lines|
      && lines[off..off + BlockSize(pkg[i])] == TypesBlock(pkg[i].members, Lookup(reg, pkg[i].key).value)
  {
    var blocks := Blocks(reg, pkg).value;
    var h := Header(pkgName);
    BlockAt(reg, pkg, i);
    var off := TotalSize(pkg[..i]);
    SliceOfMiddle(h, blocks, Footer(version), off, off + BlockSize(pkg[i]));
  }

  /** A slice of the middle part of `a + b + c` is the slice of `b`. */
  lemma SliceOfMiddle(a: seq<string>, b: seq<string>, c: seq<string>, lo: nat, hi: nat)
    requires lo <= hi <= |b|
    ensures (a + b + c)[|a| + lo..|a| + hi] == b[lo..hi]
  {
    var s := a + b + c;
    forall k | 0 <= k < hi - lo
      ensures s[|a| + lo..|a| + hi][k] == b[lo..hi][k]
    {
      assert s[|a| + lo + k] == b[lo + k];
    }
  }

  /** Whatever the lookup returns is the XML type of some registry entry. */
  lemma LookupFromRegistry(reg: Registry, rawKey: string)
    requires CanLookup(reg, Lower(rawKey)) && Lookup(reg, rawKey).Some?
    ensures exists mk :: mk in reg.entries && reg.entries[mk].xmlType == Lookup(reg, rawKey)
  {
    var key := Lower(rawKey);
    if !ExactHit(reg, key) {
      ScanFromRegistry(reg, key, reg.keys);
    }
  }

  lemma {:induction false} ScanFromRegistry(reg: Registry, key: string, ks: seq<string>)
    requires CanLookup(reg, key)
    requires forall i :: 0 <= i < |ks| ==> ks[i] in reg.entries
    requires Scan(reg, key, ks).Some?
    ensures exists mk :: mk in reg.entries && reg.entries[mk].xmlType == Scan(reg, key, ks)
  {
    var last := ks[|ks| - 1];
    if FolderMatches(reg, key, last) {
      assert reg.entries[last].xmlType == Scan(reg, key, ks);
    } else if AliasOf(key).Some? {
      assert reg.entries[AliasOf(key).value].xmlType == Scan(reg, key, ks);
    } else {
      var init := ks[..|ks| - 1];
      ScanFromRegistry(reg, key, init);
    }
  }

  /** No line of the manifest holds a newline when none of its inputs does. */
  lemma {:induction false} BlocksHaveNoNewline(reg: Registry, pkg: seq<PkgEntry>)
    requires Resolvable(reg, pkg) && Blocks(reg, pkg).Success?
    requires forall mk :: mk in reg.entries && reg.entries[mk].xmlType.Some? ==> '\n' !in reg.entries[mk].xmlType.value
    requires forall i, j :: 0 <= i < |pkg| && 0 <= j < |pkg[i].members| ==> '\n' !in pkg[i].members[j]
    ensures forall k :: 0 <= k < |Blocks(reg, pkg).value| ==> '\n' !in Blocks(reg, pkg).value[k]
  {
    if pkg != [] {
      var init := pkg[..|pkg| - 1];
      var last := pkg[|pkg| - 1];
      BlocksOutcome(reg, init);
      BlocksHaveNoNewline(reg, init);
      LookupFromRegistry(reg, last.key);
      var t := Lookup(reg, last.key).value;
      var block := TypesBlock(last.members, t);
      forall k | 0 <= k < |block|
        ensures '\n' !in block[k]
      {
        if 1 <= k < 1 + |last.members| {
          assert block[k] == MemberLine(last.members[k - 1]);
        }
      }
    }
  }

  /** The fixed lines and the name and version lines hold no newline when the name and version do not. */
  lemma HeaderFooterHaveNoNewline(pkgName: string, version: string)
    requires '\n' !in pkgName && '\n' !in version
    ensures forall k :: 0 <= k < |Header(pkgName)| ==> '\n' !in Header(pkgName)[k]
    ensures forall k :: 0 <= k < |Footer(version)| ==> '\n' !in Footer(version)[k]
  {
    FixedLinesHaveNoNewline();
    assert '\n' !in FullNamePrefix && '\n' !in "</fullName>";
    assert '\n' !in "    <version>" && '\n' !in "</version>";
  }

  lemma FixedLinesHaveNoNewline()
    ensures '\n' !in XmlDecl && '\n' !in PackageOpen && '\n' !in PackageClose
  {
    NamespaceHasNoNewline();
  }

  lemma NamespaceHasNoNewline()
    ensures '\n' !in MetadataNamespace
  {
  }

  /**
    The manifest string splits at its newlines back into its lines, when no
    member name, package name, version or registry type name holds a newline.
  */
  lemma ManifestSplitsIntoLines(reg: Registry, pkg: seq<PkgEntry>, pkgName: string, version: string)
    requires Resolvable(reg, pkg)
    requires ManifestLines(reg, pkg, pkgName, version).Success?
    requires forall mk :: mk in reg.entries && reg.entries[mk].xmlType.Some? ==> '\n' !in reg.entries[mk].xmlType.value
    requires forall i, j :: 0 <= i < |pkg| && 0 <= j < |pkg[i].members| ==> '\n' !in pkg[i].members[j]
    requires '\n' !in pkgName && '\n' !in version
    ensures Split(Manifest(reg, pkg, pkgName, version).value, '\n') == ManifestLines(reg, pkg, pkgName, version).value
  {
    var lines := ManifestLines(reg, pkg, pkgName, version).value;
    var blocks := Blocks(reg, pkg).value;
    BlocksHaveNoNewline(reg, pkg);
    var h := Header(pkgName);
    HeaderFooterHaveNoNewline(pkgName, version);
    var f := Footer(version);
    assert lines == h + blocks + f;
    forall k | 0 <= k < |lines|
      ensures '\n' !in lines[k]
    {
      if k < |h| {
        assert lines[k] == h[k];
      } else if k < |h| + |blocks| {
        assert lines[k] == blocks[k - |h|];
      } else {
        assert lines[k] == f[k - |h| - |blocks|];
      }
    }
    SplitJoin(lines, '\n');
  }
}
