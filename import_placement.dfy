/** What the placement rule of `_find_namespace_region` and the splice of
    `namespace_insert` guarantee: the order of the fallbacks, the early exit
    of the scan, sorted placement among already sorted `use` lines, and where
    in the buffer the new line lands. */
module ImportPlacement {
  import opened Wrappers
  import opened PyStrings
  import opened SublimePhpLibrary

  // ---------------------------------------------------------------------
  // The choice of anchor
  // ---------------------------------------------------------------------

  /** With no usable `use` line the namespace declaration is the anchor, then
      the opening tag, and with neither the routine fails. */
  lemma FallbackOrder(m: Matches, target: string)
    requires NoUseAnchor(m.uses, target)
    ensures ChooseAnchor(m, target) ==
              if m.namespaceDecl.Some? then Success(AfterNamespace)
              else if m.openTag.Some? then Success(AfterOpenTag)
              else Failure(NoAnchor(NoAnchorMessage))
  {
  }

  /** The converse of ChooseAnchor's first postcondition: a leading run of
      lines below the target, ended by the last line or by a parsed line at or
      after the target, makes its last line the anchor. */
  lemma UseAnchorExact(m: Matches, target: string, k: nat)
    requires k < |m.uses|
    requires forall i :: 0 <= i <= k ==> Below(m.uses[i], target)
    requires k + 1 < |m.uses| ==>
               m.uses[k + 1].path.Some? && LessEq(target, m.uses[k + 1].path.value)
    ensures ChooseAnchor(m, target) == Success(AfterUse(k))
  {
  }

  /** A line without an extractable path, reached by the scan, makes the
      routine fail whatever fallbacks exist: it is not skipped. */
  lemma UnparsableUseFails(m: Matches, target: string, k: nat)
    requires k < |m.uses| && m.uses[k].path.None?
    requires forall i :: 0 <= i < k ==> Below(m.uses[i], target)
    ensures ChooseAnchor(m, target) == Failure(UnparsableUse(k))
  {
  }

  /** The scan stops at the first line whose path is not below the target:
      the lines after it are never examined, so replacing them changes
      nothing. */
  lemma LaterLinesIgnored(m: Matches, target: string, rest: seq<UseMatch>)
    requires RunLength(m.uses, target) < |m.uses|
    ensures var k := RunLength(m.uses, target);
            ChooseAnchor(m.(uses := m.uses[..k + 1] + rest), target) == ChooseAnchor(m, target)
  {
    var k := RunLength(m.uses, target);
    var uses' := m.uses[..k + 1] + rest;
    assert forall i :: 0 <= i <= k ==> uses'[i] == m.uses[i];
  }

  // ---------------------------------------------------------------------
  // Sorted placement
  // ---------------------------------------------------------------------

  predicate AllParsed(uses: seq<UseMatch>)
  {
    forall i :: 0 <= i < |uses| ==> uses[i].path.Some?
  }

  function PathsOf(uses: seq<UseMatch>): (ps: seq<string>)
    requires AllParsed(uses)
    ensures |ps| == |uses| && forall i :: 0 <= i < |uses| ==> ps[i] == uses[i].path.value
  {
    seq(|uses|, i requires 0 <= i < |uses| => uses[i].path.value)
  }

  /** Non-decreasing in Python's string order. */
  predicate Sorted(ps: seq<string>)
  {
    forall i, j :: 0 <= i < j < |ps| ==> LessEq(ps[i], ps[j])
  }

  /** When every `use` line has a path and the paths are sorted, the scan
      splits them at k: all before k are below the target, all from k on are
      at or after it; the line before k (if any) is the anchor, so the new path
      goes between positions k - 1 and k, and the paths stay sorted. */
  lemma SortedPlacement(m: Matches, target: string)
    requires AllParsed(m.uses) && Sorted(PathsOf(m.uses))
    ensures var k := RunLength(m.uses, target);
            var ps := PathsOf(m.uses);
            (forall i :: 0 <= i < k ==> Less(ps[i], target))
            && (forall i :: k <= i < |ps| ==> LessEq(target, ps[i]))
            && (k > 0 ==> ChooseAnchor(m, target) == Success(AfterUse(k - 1)))
            && (k == 0 ==> NoUseAnchor(m.uses, target))
            && Sorted(ps[..k] + [target] + ps[k..])
  {
    var k := RunLength(m.uses, target);
    var ps := PathsOf(m.uses);
    forall i | k <= i < |ps|
      ensures LessEq(target, ps[i])
    {
      if i > k {
        LessEqTransitive(target, ps[k], ps[i]);
      }
    }
    var q := ps[..k] + [target] + ps[k..];
    assert |q| == |ps| + 1;
    forall i, j | 0 <= i < j < |q|
      ensures LessEq(q[i], q[j])
    {
      if j < k {
        assert q[i] == ps[i] && q[j] == ps[j];
      } else if j == k {
        assert q[i] == ps[i] && q[j] == target;
        LessEqOfLess(ps[i], target);
      } else if i < k {
        assert q[i] == ps[i] && q[j] == ps[j - 1];
      } else if i == k {
        assert q[i] == target && q[j] == ps[j - 1];
      } else {
        assert q[i] == ps[i - 1] && q[j] == ps[j - 1];
      }
    }
  }

  // ---------------------------------------------------------------------
  // Where the new line lands
  // ---------------------------------------------------------------------

  /** The new line goes right after the anchor `use` match and no later than
      the start of the next `use` match, so in the buffer it sits between the
      two paths it was compared with. */
  lemma InsertionBetweenUseLines(doc: string, m: Matches, target: string, k: nat)
    requires WellFormedMatches(doc, m)
    requires ChooseAnchor(m, target) == Success(AfterUse(k))
    requires k + 1 < |m.uses|
    ensures 0 < m.uses[k].region.end <= |doc|
    ensures var p := InsertionPoint(doc, m.uses[k].region.end);
            m.uses[k].region.end < p <= m.uses[k + 1].region.begin
  {
    var e, b := m.uses[k].region.end, m.uses[k + 1].region.begin;
    assert '\n' in doc[e..b];
    assert doc[e - 1] == ';';
  }

  /** The anchor's line ends right at the anchor: its match ends with the
      newline (the namespace declaration), or a newline follows it (a `use`
      line ending at its `;`, or the tag alone on its line). */
  predicate AnchorEndsLine(doc: string, end: nat)
  {
    0 < end <= |doc| && (doc[end - 1] == '\n' || (end < |doc| && doc[end] == '\n'))
  }

  /** When the anchor's line ends right at the anchor, the `use` statement is
      inserted as a whole line of its own: it starts a line, ends with the
      newline it brings, and everything up to the anchor's end and everything
      after the insertion point are unchanged. */
  lemma InsertedLineIsWhole(doc: string, end: nat, namespace: string)
    requires AnchorEndsLine(doc, end)
    ensures InsertionPoint(doc, end) <= |doc|
    ensures var p := InsertionPoint(doc, end);
            var s := UseStatement(namespace);
            var doc' := Splice(doc, p, s);
            IsLineStart(doc', p) && doc'[p..p + |s|] == s && IsLineStart(doc', p + |s|)
            && doc'[..end] == doc[..end] && doc'[p + |s|..] == doc[p..]
  {
    var p := InsertionPoint(doc, end);
    assert IsLineStart(doc, p);
    var s := UseStatement(namespace);
    var doc' := Splice(doc, p, s);
    assert doc'[p - 1] == doc'[..p][p - 1] == doc[..p][p - 1];
    assert doc'[p + |s| - 1] == doc'[p..p + |s|][|s| - 1] == s[|s| - 2..][1];
    assert doc'[..end] == doc'[..p][..end];
  }

  /** The namespace declaration's match ends with its newline, so when the
      declaration is the anchor the new statement is always a whole line. */
  lemma NamespaceAnchorEndsLine(doc: string, m: Matches, target: string)
    requires WellFormedMatches(doc, m)
    requires ChooseAnchor(m, target) == Success(AfterNamespace)
    ensures AnchorEndsLine(doc, m.namespaceDecl.value.end)
  {
  }

  // ---------------------------------------------------------------------
  // The source's offset, end + 1
  // ---------------------------------------------------------------------

  /** After a `use` match or the tag, the corrected offset is the source's
      `end + 1`: the correction only ever moves the offset after the
      namespace declaration. */
  lemma UseAndTagAnchorsKeepSourceOffset(doc: string, m: Matches, target: string)
    requires WellFormedMatches(doc, m)
    requires ChooseAnchor(m, target).Success? && !ChooseAnchor(m, target).value.AfterNamespace?
    ensures FindRegion(m, target).Success?
    ensures var r := FindRegion(m, target).value;
            0 < r.end <= |doc| && InsertionPoint(doc, r.end) == SourceInsertionPoint(doc, r)
  {
    var r := FindRegion(m, target).value;
    if ChooseAnchor(m, target).value.AfterOpenTag? {
      assert doc[r.begin..r.end][4] == doc[r.end - 1];
    }
  }

  /** Whenever the character after the anchor is a newline (a `use` line or
      the opening tag at the end of its line, or a blank line after the
      namespace declaration) the corrected offset is the source's. */
  lemma SourceOffsetWhenNewlineFollows(doc: string, anchor: Region)
    requires 0 < anchor.end < |doc| && doc[anchor.end] == '\n'
    ensures InsertionPoint(doc, anchor.end) == SourceInsertionPoint(doc, anchor)
  {
  }

  /** The namespace declaration's match already ends with its newline, so when
      the declaration is the anchor and no blank line follows it, the source's
      offset `end + 1` is one character into the following line. */
  lemma NamespaceAnchorSplitsNextLine(doc: string, m: Matches, target: string)
    requires WellFormedMatches(doc, m)
    requires ChooseAnchor(m, target) == Success(AfterNamespace)
    requires m.namespaceDecl.value.end < |doc| && doc[m.namespaceDecl.value.end] != '\n'
    ensures !IsLineStart(doc, SourceInsertionPoint(doc, m.namespaceDecl.value))
    ensures InsertionPoint(doc, m.namespaceDecl.value.end) == m.namespaceDecl.value.end
  {
  }

  /** An anchor with more text after it on its own line: a `use` line with a
      trailing comment after its `;`, or `<?php` followed by code. The
      source's `end + 1` is not a line start, so the statement is inserted
      within that line, and the model keeps that offset. */
  lemma TrailingTextKeepsSourceOffset(doc: string, anchor: Region)
    requires 0 < anchor.end < |doc|
    requires doc[anchor.end - 1] != '\n' && doc[anchor.end] != '\n'
    ensures !IsLineStart(doc, SourceInsertionPoint(doc, anchor))
    ensures InsertionPoint(doc, anchor.end) == SourceInsertionPoint(doc, anchor)
  {
  }

  /** `<?php\nuse A\B; // x\n` with target `Z`: the statement is inserted one
      character past the `;`, before the comment, which moves to the next
      line. */
  const CommentLineDoc := "<?php\nuse A\\B; // x\n"
  const CommentLineMatches := Matches([UseMatch(Region(6, 14), Some("A\\B"))], None, Some(Region(0, 5)))

  lemma UseLineWithComment()
    ensures WellFormedMatches(CommentLineDoc, CommentLineMatches)
    ensures FindRegion(CommentLineMatches, "Z") == Success(Region(6, 14))
    ensures InsertionPoint(CommentLineDoc, 14) == SourceInsertionPoint(CommentLineDoc, Region(6, 14)) == 15
    ensures Splice(CommentLineDoc, 15, UseStatement("Z"))
              == "<?php\nuse A\\B; " + "use Z;\n" + "// x\n"
  {
    CommentLineAnchor();
    CommentLineSplice();
  }

  lemma CommentLineAnchor()
    ensures WellFormedMatches(CommentLineDoc, CommentLineMatches)
    ensures FindRegion(CommentLineMatches, "Z") == Success(Region(6, 14))
  {
    assert CommentLineDoc[13] == ';';
    assert CommentLineDoc[0..5] == "<?php";
    assert Less("A\\B", "Z");
    UseAnchorExact(CommentLineMatches, "Z", 0);
  }

  lemma CommentLineSplice()
    ensures InsertionPoint(CommentLineDoc, 14) == 15
    ensures Splice(CommentLineDoc, 15, UseStatement("Z"))
              == "<?php\nuse A\\B; " + "use Z;\n" + "// x\n"
  {
    assert CommentLineDoc[13] == ';';
    assert CommentLineDoc[..15] == "<?php\nuse A\\B; ";
    assert CommentLineDoc[15..] == "// x\n";
    assert UseStatement("Z") == "use Z;\n";
  }

  /** A doc comment opening on the tag's line, with only the tag to anchor
      on: the statement goes one character past `<?php`, before the
      comment, so it stays code. */
  const DocCommentDoc := "<?php /**\n * d\n */\nfoo();\n"
  const DocCommentMatches := Matches([], None, Some(Region(0, 5)))

  lemma TagBeforeDocComment()
    ensures WellFormedMatches(DocCommentDoc, DocCommentMatches)
    ensures FindRegion(DocCommentMatches, "Z") == Success(Region(0, 5))
    ensures InsertionPoint(DocCommentDoc, 5) == SourceInsertionPoint(DocCommentDoc, Region(0, 5)) == 6
    ensures Splice(DocCommentDoc, 6, UseStatement("Z"))
              == "<?php " + "use Z;\n" + "/**\n * d\n */\nfoo();\n"
  {
    DocCommentAnchor();
    DocCommentSplice();
  }

  lemma DocCommentAnchor()
    ensures WellFormedMatches(DocCommentDoc, DocCommentMatches)
    ensures FindRegion(DocCommentMatches, "Z") == Success(Region(0, 5))
  {
    assert DocCommentDoc[0..5] == "<?php";
  }

  lemma DocCommentSplice()
    ensures InsertionPoint(DocCommentDoc, 5) == 6
    ensures Splice(DocCommentDoc, 6, UseStatement("Z"))
              == "<?php " + "use Z;\n" + "/**\n * d\n */\nfoo();\n"
  {
    assert DocCommentDoc[4] == 'p';
    assert DocCommentDoc[..6] == "<?php ";
    assert DocCommentDoc[6..] == "/**\n * d\n */\nfoo();\n";
    assert UseStatement("Z") == "use Z;\n";
  }

  /** The input that shows the finding: a namespace declaration followed
      directly by the class. The source puts the statement after the `c` of
      `class`; the corrected offset puts it on its own line. */
  const ClassLineDoc := "<?php\nnamespace App;\nclass Foo {}\n"
  const ClassLineMatches := Matches([], Some(Region(6, 21)), Some(Region(0, 5)))

  lemma AsWrittenSplitsClassLine()
    ensures WellFormedMatches(ClassLineDoc, ClassLineMatches)
    ensures FindRegion(ClassLineMatches, "App\\Bar") == Success(Region(6, 21))
    ensures !IsLineStart(ClassLineDoc, SourceInsertionPoint(ClassLineDoc, Region(6, 21)))
    ensures Splice(ClassLineDoc, SourceInsertionPoint(ClassLineDoc, Region(6, 21)), UseStatement("App\\Bar"))
              == "<?php\nnamespace App;\nc" + "use App\\Bar;\n" + "lass Foo {}\n"
    ensures Splice(ClassLineDoc, InsertionPoint(ClassLineDoc, 21), UseStatement("App\\Bar"))
              == "<?php\nnamespace App;\n" + "use App\\Bar;\n" + "class Foo {}\n"
  {
    ClassLineAnchor();
    ClassLineSourceSplice();
    ClassLineCorrectedPoint();
    ClassLineCorrectedSplice();
  }

  lemma ClassLineAnchor()
    ensures WellFormedMatches(ClassLineDoc, ClassLineMatches)
    ensures FindRegion(ClassLineMatches, "App\\Bar") == Success(Region(6, 21))
  {
    assert ClassLineDoc[20] == '\n';
    assert ClassLineDoc[0..5] == "<?php";
  }

  lemma ClassLineSourceSplice()
    ensures !IsLineStart(ClassLineDoc, 22)
    ensures Splice(ClassLineDoc, 22, UseStatement("App\\Bar"))
              == "<?php\nnamespace App;\nc" + "use App\\Bar;\n" + "lass Foo {}\n"
  {
    assert ClassLineDoc[21] == 'c';
    assert ClassLineDoc[..22] == "<?php\nnamespace App;\nc";
    assert ClassLineDoc[22..] == "lass Foo {}\n";
    assert UseStatement("App\\Bar") == "use App\\Bar;\n";
  }

  lemma ClassLineCorrectedPoint()
    ensures InsertionPoint(ClassLineDoc, 21) == 21
  {
    assert ClassLineDoc[20] == '\n' && ClassLineDoc[21] == 'c';
  }

  lemma ClassLineCorrectedSplice()
    ensures Splice(ClassLineDoc, 21, UseStatement("App\\Bar"))
              == "<?php\nnamespace App;\n" + "use App\\Bar;\n" + "class Foo {}\n"
  {
    assert ClassLineDoc[..21] == "<?php\nnamespace App;\n";
    assert ClassLineDoc[21..] == "class Foo {}\n";
    assert UseStatement("App\\Bar") == "use App\\Bar;\n";
  }

  // ---------------------------------------------------------------------
  // Placement in concrete buffers
  // ---------------------------------------------------------------------

  /** Two top-level imports and a target between them: the new line goes after
      the first. */
  const TwoImportsDoc := "<?php\nnamespace App;\n\n" + "use App\\Alpha;\n" + "use App\\Zeta;\n"
  const TwoImportsMatches := Matches([UseMatch(Region(22, 36), Some("App\\Alpha")),
                                      UseMatch(Region(37, 50), Some("App\\Zeta"))],
                                     Some(Region(6, 21)), Some(Region(0, 5)))

  lemma PlacementBetweenTwoImports()
    ensures WellFormedMatches(TwoImportsDoc, TwoImportsMatches)
    ensures TwoImportsDoc[22..36] == "use App\\Alpha;"
    ensures FindRegion(TwoImportsMatches, "App\\Mu") == Success(Region(22, 36))
  {
    TwoImportsShape();
    assert Less("App\\Alpha", "App\\Mu");
    assert !Less("App\\Zeta", "App\\Mu");
    UseAnchorExact(TwoImportsMatches, "App\\Mu", 0);
  }

  lemma TwoImportsShape()
    ensures WellFormedMatches(TwoImportsDoc, TwoImportsMatches)
    ensures TwoImportsDoc[22..36] == "use App\\Alpha;"
  {
    assert TwoImportsDoc[0..5] == "<?php";
    assert TwoImportsDoc[20] == '\n';
    assert TwoImportsDoc[35] == ';' && TwoImportsDoc[49] == ';';
    assert TwoImportsDoc[36..37] == "\n";
  }

  /** The scan has no class-body boundary: a trait `use` inside the class,
      which `find_all` reports like any other, becomes the anchor when every
      path before it and its own are below the target. */
  const TraitDoc := "<?php\nnamespace App;\n\n" + "use App\\Alpha;\n\n" + "class Foo\n{\n    " + "use SomeTrait;\n}\n"
  const TraitMatches := Matches([UseMatch(Region(22, 36), Some("App\\Alpha")),
                                 UseMatch(Region(54, 68), Some("SomeTrait"))],
                                Some(Region(6, 21)), Some(Region(0, 5)))

  lemma TraitUseCanBeAnchor()
    ensures WellFormedMatches(TraitDoc, TraitMatches)
    ensures TraitDoc[38..54] == "class Foo\n{\n    "
    ensures FindRegion(TraitMatches, "Zend\\Log") == Success(Region(54, 68))
  {
    TraitShape();
    assert Less("App\\Alpha", "Zend\\Log");
    assert Less("SomeTrait", "Zend\\Log");
    UseAnchorExact(TraitMatches, "Zend\\Log", 1);
  }

  lemma TraitShape()
    ensures WellFormedMatches(TraitDoc, TraitMatches)
    ensures TraitDoc[38..54] == "class Foo\n{\n    "
  {
    assert TraitDoc[0..5] == "<?php";
    assert TraitDoc[20] == '\n';
    assert TraitDoc[35] == ';' && TraitDoc[67] == ';';
    assert TraitDoc[36..54][0] == '\n';
  }
}
