/** The import-placement routine of sublime_php_library.py: deciding whether a
    buffer holds a PHP file, choosing the existing line after which
    `use <fqdn>;` goes, and splicing that line into the buffer.

    The editor's regular-expression searches are not modelled; their results
    are inputs (`Matches`), with the shape the patterns guarantee stated by
    `WellFormedMatches`. */
module SublimePhpLibrary {
  import opened Wrappers
  import opened PyStrings

  // ---------------------------------------------------------------------
  // is_php_file
  // ---------------------------------------------------------------------

  /** `view.file_name().endswith('.php')`. */
  function IsPhpFile(fileName: string): (r: bool)
    ensures r <==> exists stem :: stem + ".php" == fileName
  {
    if |fileName| >= 4 && fileName[|fileName| - 4..] == ".php" then
      assert fileName[..|fileName| - 4] + ".php" == fileName;
      true
    else
      false
  }

  /** File names the suffix test accepts and refuses. */
  lemma IsPhpFileExamples()
    ensures IsPhpFile("src/Foo.php") && IsPhpFile(".php")
    ensures !IsPhpFile("Foo.phpt") && !IsPhpFile("php") && !IsPhpFile("Foo.PHP")
  {
    assert "src/Foo" + ".php" == "src/Foo.php";
    assert "" + ".php" == ".php";
  }

  // ---------------------------------------------------------------------
  // Inputs: the editor's buffer and the regions its searches report
  // ---------------------------------------------------------------------

  /** A Sublime Text region: `begin` inclusive, `end` exclusive. */
  datatype Region = Region(begin: nat, end: nat)

  /** One match of `use (.*);` (all of them, in document order, from offset 0,
      so `use` lines inside a class body are included). `path` is group 1 of
      the anchored pattern applied to the match's whole line; it is None when
      that pattern does not match the line or matches without the group
      (an alias `use A as B;`, for instance). */
  datatype UseMatch = UseMatch(region: Region, path: Option<string>)

  /** What the three searches of `_find_namespace_region` report. */
  datatype Matches = Matches(
    uses: seq<UseMatch>,            // view.find_all("use (.*);", 0)
    namespaceDecl: Option<Region>,  // view.find("namespace (.*);\n", 0)
    openTag: Option<Region>)        // view.find('<\?php', 0)

  predicate RegionIn(doc: string, r: Region)
  {
    r.begin < r.end <= |doc|
  }

  /** The shape the patterns give their matches: every region is non-empty
      and inside the buffer; a `use` match ends with its `;`, and the matches
      come in document order on different lines (`.*` does not cross a newline
      and is greedy, so one line yields at most one match); the namespace
      declaration's match ends with the newline its pattern includes; the tag
      match is the text `<?php`. */
  predicate WellFormedMatches(doc: string, m: Matches)
  {
    (forall i :: 0 <= i < |m.uses| ==>
       RegionIn(doc, m.uses[i].region) && doc[m.uses[i].region.end - 1] == ';')
    && (forall i :: 0 <= i < |m.uses| - 1 ==>
          m.uses[i].region.end <= m.uses[i + 1].region.begin
          && '\n' in doc[m.uses[i].region.end..m.uses[i + 1].region.begin])
    && (m.namespaceDecl.Some? ==>
          RegionIn(doc, m.namespaceDecl.value) && doc[m.namespaceDecl.value.end - 1] == '\n')
    && (m.openTag.Some? ==>
          RegionIn(doc, m.openTag.value) && doc[m.openTag.value.begin..m.openTag.value.end] == "<?php")
  }

  // ---------------------------------------------------------------------
  // _find_namespace_region
  // ---------------------------------------------------------------------

  /** Why no anchor region could be returned. `UnparsableUse(i)`: the
      i-th scanned `use` match had no extracted path, so `ns.group(1)` or the
      comparison raised. `NoAnchor`: the RuntimeError of line 42, with its
      message. */
  datatype Error = UnparsableUse(index: nat) | NoAnchor(message: string)

  const NoAnchorMessage := "Cannot find the opening php tag nor a namespace declaration. Is this a php file?"

  /** Which of the candidate regions the routine returns. */
  datatype Anchor = AfterUse(index: nat) | AfterNamespace | AfterOpenTag

  /** The comparison of line 30 succeeds and says "keep going". */
  predicate Below(u: UseMatch, target: string)
  {
    u.path.Some? && Less(u.path.value, target)
  }

  /** No `use` line can serve as the anchor: there is none, or the first one's
      path is already at or after the target. */
  predicate NoUseAnchor(uses: seq<UseMatch>, target: string)
  {
    uses == [] || (uses[0].path.Some? && LessEq(target, uses[0].path.value))
  }

  /** The number of `use` matches the loop accepts before it stops: the
      length of the longest leading run whose paths are all below the target. */
  function RunLength(uses: seq<UseMatch>, target: string): (k: nat)
    ensures k <= |uses|
    ensures forall i :: 0 <= i < k ==> Below(uses[i], target)
    ensures k < |uses| ==> !Below(uses[k], target)
  {
    if uses == [] || !Below(uses[0], target) then 0
    else 1 + RunLength(uses[1..], target)
  }

  /** The anchor `_find_namespace_region` settles on, or the error it raises. */
  function ChooseAnchor(m: Matches, target: string): (r: Result<Anchor, Error>)
    ensures r.Success? && r.value.AfterUse? ==>
              var k := r.value.index;
              k < |m.uses|
              && (forall i :: 0 <= i <= k ==> Below(m.uses[i], target))
              && (k + 1 < |m.uses| ==>
                    m.uses[k + 1].path.Some? && LessEq(target, m.uses[k + 1].path.value))
    ensures r == Success(AfterNamespace) ==>
              NoUseAnchor(m.uses, target) && m.namespaceDecl.Some?
    ensures r == Success(AfterOpenTag) ==>
              NoUseAnchor(m.uses, target) && m.namespaceDecl.None? && m.openTag.Some?
    ensures r.Failure? && r.error.NoAnchor? ==>
              NoUseAnchor(m.uses, target) && m.namespaceDecl.None? && m.openTag.None?
              && r.error.message == NoAnchorMessage
    ensures r.Failure? && r.error.UnparsableUse? ==>
              var k := r.error.index;
              k < |m.uses| && m.uses[k].path.None?
              && forall i :: 0 <= i < k ==> Below(m.uses[i], target)
  {
    var k := RunLength(m.uses, target);
    if k < |m.uses| && m.uses[k].path.None? then Failure(UnparsableUse(k))
    else if k > 0 then Success(AfterUse(k - 1))
    else if m.namespaceDecl.Some? then Success(AfterNamespace)
    else if m.openTag.Some? then Success(AfterOpenTag)
    else Failure(NoAnchor(NoAnchorMessage))
  }

  function AnchorRegion(m: Matches, a: Anchor): Region
    requires a.AfterUse? ==> a.index < |m.uses|
    requires a.AfterNamespace? ==> m.namespaceDecl.Some?
    requires a.AfterOpenTag? ==> m.openTag.Some?
  {
    match a
    case AfterUse(k) => m.uses[k].region
    case AfterNamespace => m.namespaceDecl.value
    case AfterOpenTag => m.openTag.value
  }

  /** The region `_find_namespace_region` returns, or the error it raises:
      on success one of the regions the searches reported, on failure the
      error `ChooseAnchor` gives. */
  function FindRegion(m: Matches, target: string): (r: Result<Region, Error>)
    ensures r.Failure? <==> ChooseAnchor(m, target).Failure?
    ensures r.Failure? ==> r.error == ChooseAnchor(m, target).error
    ensures r.Success? ==>
              (exists k :: 0 <= k < |m.uses| && m.uses[k].region == r.value)
              || m.namespaceDecl == Some(r.value) || m.openTag == Some(r.value)
  {
    match ChooseAnchor(m, target)
    case Success(a) => Success(AnchorRegion(m, a))
    case Failure(e) => Failure(e)
  }

  /** `_find_namespace_region`: the scan over the `use` matches with its early
      exit, then the two fallbacks and the final error. */
  method FindNamespaceRegion(m: Matches, namespace: string) returns (r: Result<Region, Error>)
    ensures r == FindRegion(m, namespace)
  {
    var region: Option<Region> := None;
    var i := 0;
    while i < |m.uses|
      invariant i <= RunLength(m.uses, namespace)
      invariant region == if i == 0 then None else Some(m.uses[i - 1].region)
    {
      var path := m.uses[i].path;
      if path.None? {
        return Failure(UnparsableUse(i));
      }
      if Less(path.value, namespace) {
        region := Some(m.uses[i].region);
        i := i + 1;
        continue;
      }
      break;
    }

    if region.None? {
      region := m.namespaceDecl;
    }
    if region.None? {
      region := m.openTag;
    }
    if region.None? {
      return Failure(NoAnchor(NoAnchorMessage));
    }
    return Success(region.value);
  }

  // ---------------------------------------------------------------------
  // namespace_insert
  // ---------------------------------------------------------------------

  /** The text line 13 builds. */
  function UseStatement(namespace: string): (s: string)
    ensures |s| == |namespace| + 6
    ensures s[..4] == "use " && s[4..4 + |namespace|] == namespace
    ensures s[|s| - 2..] == ";\n"
  {
    "use " + namespace + ";\n"
  }

  /** `p` is the first offset of a line other than the first one. */
  predicate IsLineStart(doc: string, p: nat)
  {
    0 < p <= |doc| && doc[p - 1] == '\n'
  }

  /** The offset the source computes at line 17: one past the anchor's end.
      It starts a line exactly when the anchor is followed by a newline. */
  function SourceInsertionPoint(doc: string, anchor: Region): (p: nat)
    ensures anchor.end < p
    ensures IsLineStart(doc, p) <==> anchor.end < |doc| && doc[anchor.end] == '\n'
  {
    anchor.end + 1
  }

  /** The offset at which the new `use` line goes, after an anchor match
      ending at `end`. The source inserts at `end + 1`, one past the character
      after a `use` match's `;` or after the tag. The namespace declaration's
      match already ends with its newline, so there `end + 1` is one character
      into the following line unless that line is blank; the corrected offset
      is then `end`, the start of that line (see the README's findings). In
      every other case it is the source's `end + 1`. */
  function InsertionPoint(doc: string, end: nat): (p: nat)
    requires 0 < end <= |doc|
    ensures end <= p <= end + 1
    ensures p == end + 1 <==> doc[end - 1] != '\n' || IsLineStart(doc, end + 1)
    ensures doc[end - 1] == '\n' ==> p <= |doc| && IsLineStart(doc, p)
  {
    if doc[end - 1] == '\n' && !IsLineStart(doc, end + 1) then end else end + 1
  }

  /** `view.insert(edit, p, s)` on the buffer's text. */
  function Splice(doc: string, p: nat, s: string): (r: string)
    requires p <= |doc|
    ensures |r| == |doc| + |s|
    ensures r[..p] == doc[..p] && r[p..p + |s|] == s && r[p + |s|..] == doc[p..]
  {
    doc[..p] + s + doc[p..]
  }

  /** The anchor the insertion would use lies in the buffer and the offset
      after it does too: after a `use` match or the tag there is at least one
      more character, as the source's `end + 1` needs. */
  predicate AnchorInsertable(doc: string, m: Matches, namespace: string)
  {
    var found := FindRegion(m, namespace);
    namespace != [] && found.Success? ==>
      0 < found.value.end <= |doc| && InsertionPoint(doc, found.value.end) <= |doc|
  }

  /** The editor buffer that `namespace_insert` changes in place. */
  class View {
    var text: string

    constructor (text: string)
      ensures this.text == text
    {
      this.text := text;
    }

    /** `view.insert(edit, point, s)`. */
    method Insert(point: nat, s: string)
      requires point <= |text|
      modifies this
      ensures text == Splice(old(text), point, s)
    {
      text := Splice(text, point, s);
    }
  }

  /** `namespace_insert`: an empty name leaves the buffer alone without looking
      for an anchor; otherwise the anchor is found (or its error raised) and
      `use <namespace>;` plus a newline is inserted just after it, at the start
      of the next line when the anchor is the namespace declaration. */
  method NamespaceInsert(view: View, m: Matches, namespace: string) returns (r: Result<(), Error>)
    requires AnchorInsertable(view.text, m, namespace)
    modifies view
    ensures namespace == [] ==> r == Success(()) && view.text == old(view.text)
    ensures namespace != [] && FindRegion(m, namespace).Failure? ==>
              r == Failure(FindRegion(m, namespace).error) && view.text == old(view.text)
    ensures namespace != [] && FindRegion(m, namespace).Success? ==>
              var p := InsertionPoint(old(view.text), FindRegion(m, namespace).value.end);
              r == Success(())
              && view.text == Splice(old(view.text), p, UseStatement(namespace))
              && |view.text| == |old(view.text)| + |namespace| + 6
  {
    if namespace == [] {
      return Success(());
    }

    var fullNamespace := UseStatement(namespace);
    var region := FindNamespaceRegion(m, namespace);
    if region.Failure? {
      return Failure(region.error);
    }

    view.Insert(InsertionPoint(view.text, region.value.end), fullNamespace);
    return Success(());
  }
}
