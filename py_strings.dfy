/** Python's ordering of `str` values, which `namespace > ns.group(1)` uses:
    strings are compared code point by code point, and a proper prefix comes
    first. Dafny's own `<` on sequences means "proper prefix", so the
    lexicographic order is spelled out here, together with the facts about it
    that the placement of a new `use` line relies on. */
module PyStrings {

  /** `a < b` on Python strings: never true of equal strings, and always
      true when `a` is a proper prefix of `b`. */
  predicate Less(a: string, b: string)
    ensures Less(a, b) ==> a != b
    ensures |a| < |b| && a == b[..|a|] ==> Less(a, b)
  {
    if b == [] then false
    else if a == [] then true
    else if a[0] != b[0] then a[0] < b[0]
    else Less(a[1..], b[1..])
  }

  /** `a <= b` on Python strings. */
  predicate LessEq(a: string, b: string)
  {
    !Less(b, a)
  }

  /** The textbook description of lexicographic order: `a` is a proper prefix
      of `b`, or the two agree up to a first position where `a` is smaller. */
  ghost predicate LessByWitness(a: string, b: string)
  {
    (|a| < |b| && a == b[..|a|])
    || exists i :: 0 <= i < |a| && i < |b| && a[..i] == b[..i] && a[i] < b[i]
  }

  lemma {:induction false} LessIffWitness(a: string, b: string)
    ensures Less(a, b) <==> LessByWitness(a, b)
  {
    if b == [] {
    } else if a == [] {
      assert |a| < |b| && a == b[..|a|];
    } else if a[0] != b[0] {
      if a[0] < b[0] {
        assert a[..0] == b[..0];
      }
    } else {
      var a', b' := a[1..], b[1..];
      LessIffWitness(a', b');
      if |a'| < |b'| && a' == b'[..|a'|] {
        assert a == [a[0]] + a' && b[..|a|] == [b[0]] + b'[..|a'|];
      }
      if |a| < |b| && a == b[..|a|] {
        assert a' == b'[..|a'|];
      }
      if j :| 0 <= j < |a'| && j < |b'| && a'[..j] == b'[..j] && a'[j] < b'[j] {
        assert a[..j + 1] == [a[0]] + a'[..j] && b[..j + 1] == [b[0]] + b'[..j];
        assert a[j + 1] < b[j + 1];
      }
      if i :| 0 <= i < |a| && i < |b| && a[..i] == b[..i] && a[i] < b[i] {
        assert i > 0;
        assert a'[..i - 1] == a[..i][1..] && b'[..i - 1] == b[..i][1..];
        assert a'[i - 1] < b'[i - 1];
      }
    }
  }

  lemma {:induction false} LessIrreflexive(a: string)
    ensures !Less(a, a)
  {
    if a != [] {
      LessIrreflexive(a[1..]);
    }
  }

  lemma {:induction false} LessTransitive(a: string, b: string, c: string)
    requires Less(a, b) && Less(b, c)
    ensures Less(a, c)
  {
    if a != [] && a[0] == b[0] && b[0] == c[0] {
      LessTransitive(a[1..], b[1..], c[1..]);
    }
  }

  lemma {:induction false} LessTotal(a: string, b: string)
    ensures a == b || Less(a, b) || Less(b, a)
  {
    if a != [] && b != [] && a[0] == b[0] {
      LessTotal(a[1..], b[1..]);
      if a[1..] == b[1..] {
        assert a == [a[0]] + a[1..] && b == [b[0]] + b[1..];
      }
    }
  }

  lemma LessAsymmetric(a: string, b: string)
    requires Less(a, b)
    ensures !Less(b, a) && a != b
  {
    LessIrreflexive(a);
    if Less(b, a) {
      LessTransitive(a, b, a);
    }
  }

  lemma LessEqTransitive(a: string, b: string, c: string)
    requires LessEq(a, b) && LessEq(b, c)
    ensures LessEq(a, c)
  {
    if Less(c, a) {
      LessTotal(a, b);
      if Less(a, b) {
        LessTransitive(c, a, b);
      }
    }
  }

  lemma LessEqOfLess(a: string, b: string)
    requires Less(a, b)
    ensures LessEq(a, b)
  {
    LessAsymmetric(a, b);
  }
}
