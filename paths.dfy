/** Dotted configuration paths as the path-scoped registrar builds them.

    A registrar carries its prefix as a list of segments; a binding's full path
    is that list (plus the split of an extra path), with blank segments dropped,
    one leading and one trailing '.' removed from every remaining segment, and
    the rest joined with '.'.  The functions below model the Kotlin library
    calls that pipeline uses: `split('.')`, `isBlank`, `removePrefix(".")`,
    `removeSuffix(".")` and `joinToString(".")`.
 */
module KonfigPaths {

  /** Kotlin's `Char.isWhitespace` on the Java 6 to 8 runtimes this module
      targets: `Character.isWhitespace` or `Character.isSpaceChar` (the control
      separators and the Unicode space, line and paragraph separators, with
      U+180E MONGOLIAN VOWEL SEPARATOR still a space separator there, as it is
      up to Unicode 6.2). */
  predicate IsWhitespace(c: char) {
    || c == ' ' || c == '\t' || c == '\n' || c == '\r' || c == '\U{B}' || c == '\U{C}'
    || ('\U{1C}' <= c <= '\U{1F}')
    || c == '\U{A0}' || c == '\U{1680}' || c == '\U{180E}' || ('\U{2000}' <= c <= '\U{200A}')
    || c == '\U{2028}' || c == '\U{2029}' || c == '\U{202F}' || c == '\U{205F}' || c == '\U{3000}'
  }

  /** `String.isBlank`: empty, or whitespace only. */
  predicate IsBlank(s: string) {
    forall i :: 0 <= i < |s| ==> IsWhitespace(s[i])
  }

  predicate DotFree(s: string) {
    '.' !in s
  }

  predicate AllDotFree(p: seq<string>) {
    forall k :: 0 <= k < |p| ==> DotFree(p[k])
  }

  /** `String.split('.')` with no limit: every '.' ends a piece and empty
      pieces, leading and trailing ones included, are kept. */
  function Split(s: string): (r: seq<string>)
    ensures |r| >= 1
  {
    if s == [] then [""]
    else
      var rest := Split(s[1..]);
      if s[0] == '.' then [""] + rest else [[s[0]] + rest[0]] + rest[1..]
  }

  /** `joinToString(".")`. */
  function Join(segs: seq<string>): string {
    if |segs| == 0 then ""
    else if |segs| == 1 then segs[0]
    else segs[0] + "." + Join(segs[1..])
  }

  /** `removePrefix(".")`: at most one leading dot. */
  function RemovePrefixDot(s: string): string {
    if |s| > 0 && s[0] == '.' then s[1..] else s
  }

  /** `removeSuffix(".")`: at most one trailing dot. */
  function RemoveSuffixDot(s: string): string {
    if |s| > 0 && s[|s| - 1] == '.' then s[..|s| - 1] else s
  }

  function StripDots(s: string): string {
    RemoveSuffixDot(RemovePrefixDot(s))
  }

  /** `filter { it.isNotBlank() }`. */
  function KeepNotBlank(p: seq<string>): (r: seq<string>)
    ensures forall k :: 0 <= k < |r| ==> !IsBlank(r[k])
    ensures |r| <= |p|
  {
    if p == [] then []
    else if IsBlank(p[0]) then KeepNotBlank(p[1..])
    else [p[0]] + KeepNotBlank(p[1..])
  }

  /** `map { it.removePrefix(".").removeSuffix(".") }`. */
  function StripEach(p: seq<string>): seq<string> {
    if p == [] then [] else [StripDots(p[0])] + StripEach(p[1..])
  }

  /** The full path of a binding whose segments are `p`
      (TypesafeConfigInjection.kt lines 40 and 45). */
  function FullPath(p: seq<string>): string {
    Join(StripEach(KeepNotBlank(p)))
  }

  /** Concatenation of two already normalised paths, as the registrar's
      nesting produces it: a '.' only between two non-empty parts. */
  function JoinPath(a: string, b: string): string {
    if a == "" then b else if b == "" then a else a + "." + b
  }

  /** A path with no empty or blank segment.  The empty path (the root) is
      the one exception. */
  predicate IsNormalizedPath(s: string) {
    s == "" || forall k :: 0 <= k < |Split(s)| ==> !IsBlank(Split(s)[k])
  }

  /** No leading '.', no trailing '.' and no "..". */
  predicate NoStrayDots(s: string) {
    && (|s| > 0 ==> s[0] != '.' && s[|s| - 1] != '.')
    && forall i :: 0 <= i < |s| - 1 ==> !(s[i] == '.' && s[i + 1] == '.')
  }

  // ---------------------------------------------------------------------
  // Split and Join are inverse to each other.

  /** Joining the pieces of a split gives back the string, for every string. */
  lemma {:induction false} JoinSplit(s: string)
    ensures Join(Split(s)) == s
  {
    if s != [] {
      var rest := Split(s[1..]);
      JoinSplit(s[1..]);
      if s[0] == '.' {
        assert Split(s) == [""] + rest;
        assert Join(Split(s)) == "" + "." + Join(rest);
        assert s == [s[0]] + s[1..];
      } else {
        var r := Split(s);
        assert r == [[s[0]] + rest[0]] + rest[1..];
        if |rest| == 1 {
          assert Join(r) == [s[0]] + rest[0];
          assert Join(rest) == rest[0];
        } else {
          assert r[1..] == rest[1..];
          assert Join(r) == [s[0]] + rest[0] + "." + Join(rest[1..]);
          assert Join(rest) == rest[0] + "." + Join(rest[1..]);
        }
        assert s == [s[0]] + s[1..];
      }
    }
  }

  /** No piece of a split contains the separator. */
  lemma {:induction false} SplitDotFree(s: string)
    ensures AllDotFree(Split(s))
  {
    if s != [] {
      SplitDotFree(s[1..]);
      var rest := Split(s[1..]);
      if s[0] != '.' {
        assert DotFree(rest[0]);
        assert DotFree([s[0]] + rest[0]);
        var r := Split(s);
        forall k | 0 <= k < |r| ensures DotFree(r[k]) {
          if k > 0 { assert r[k] == rest[k]; }
        }
      } else {
        var r := Split(s);
        forall k | 0 <= k < |r| ensures DotFree(r[k]) {
          if k > 0 { assert r[k] == rest[k - 1]; }
        }
      }
    }
  }

  /** Splitting a string that starts with a dot-free piece `x`. */
  lemma {:induction false} SplitDotFreeHead(x: string, t: string)
    requires DotFree(x)
    ensures Split(x + t) == [x + Split(t)[0]] + Split(t)[1..]
  {
    if x == [] {
      var st := Split(t);
      assert x + t == t;
      assert x + st[0] == st[0];
      assert st == [st[0]] + st[1..];
    } else {
      assert (x + t)[0] == x[0];
      assert (x + t)[1..] == x[1..] + t;
      assert x[0] != '.' by { assert x[0] in x; }
      assert DotFree(x[1..]) by {
        forall i | 0 <= i < |x[1..]| ensures x[1..][i] != '.' { assert x[1..][i] == x[i + 1]; assert x[i + 1] in x; }
      }
      SplitDotFreeHead(x[1..], t);
      var st := Split(t);
      assert Split(x[1..] + t) == [x[1..] + st[0]] + st[1..];
      assert [x[0]] + (x[1..] + st[0]) == x + st[0];
    }
  }

  /** One step of the split, for evaluating literal paths. */
  lemma SplitCons(c: char, s: string)
    ensures Split([c] + s) == if c == '.' then [""] + Split(s) else [[c] + Split(s)[0]] + Split(s)[1..]
  {
    assert ([c] + s)[0] == c && ([c] + s)[1..] == s;
  }

  /** Splitting a join of dot-free pieces gives back the pieces. */
  lemma {:induction false} SplitJoin(segs: seq<string>)
    requires |segs| >= 1 && AllDotFree(segs)
    ensures Split(Join(segs)) == segs
  {
    assert DotFree(segs[0]);
    if |segs| == 1 {
      SplitDotFreeHead(segs[0], "");
      assert segs[0] + "" == segs[0];
    } else {
      var rest := segs[1..];
      assert AllDotFree(rest) by {
        forall k | 0 <= k < |rest| ensures DotFree(rest[k]) { assert rest[k] == segs[k + 1]; }
      }
      SplitJoin(rest);
      var j := Join(rest);
      assert Join(segs) == segs[0] + ("." + j);
      SplitDotFreeHead(segs[0], "." + j);
      assert ("." + j)[1..] == j;
      assert Split("." + j) == [""] + Split(j);
      assert segs[0] + "" == segs[0];
      assert segs == [segs[0]] + rest;
    }
  }

  // ---------------------------------------------------------------------
  // The pipeline's building blocks, piece by piece.

  lemma {:induction false} KeepNotBlankConcat(p: seq<string>, q: seq<string>)
    ensures KeepNotBlank(p + q) == KeepNotBlank(p) + KeepNotBlank(q)
  {
    if p == [] {
      assert p + q == q;
    } else {
      assert (p + q)[0] == p[0];
      assert (p + q)[1..] == p[1..] + q;
      KeepNotBlankConcat(p[1..], q);
    }
  }

  /** Filtering keeps exactly the non-blank segments, in order; on dot-free
      segments their count and their contents are those of `p` that are
      not blank. */
  lemma {:induction false} KeepNotBlankDotFree(p: seq<string>)
    requires AllDotFree(p)
    ensures AllDotFree(KeepNotBlank(p))
  {
    if p != [] {
      assert AllDotFree(p[1..]) by {
        forall k | 0 <= k < |p[1..]| ensures DotFree(p[1..][k]) { assert p[1..][k] == p[k + 1]; }
      }
      KeepNotBlankDotFree(p[1..]);
      assert DotFree(p[0]);
      var r := KeepNotBlank(p);
      if !IsBlank(p[0]) {
        forall k | 0 <= k < |r| ensures DotFree(r[k]) {
          if k > 0 { assert r[k] == KeepNotBlank(p[1..])[k - 1]; }
        }
      }
    }
  }

  /** Filtering twice is filtering once. */
  lemma {:induction false} KeepNotBlankOfNotBlank(p: seq<string>)
    requires forall k :: 0 <= k < |p| ==> !IsBlank(p[k])
    ensures KeepNotBlank(p) == p
  {
    if p != [] {
      assert !IsBlank(p[0]);
      KeepNotBlankOfNotBlank(p[1..]);
      assert p == [p[0]] + p[1..];
    }
  }

  /** On dot-free segments, stripping dots changes nothing. */
  lemma {:induction false} StripEachDotFree(p: seq<string>)
    requires AllDotFree(p)
    ensures StripEach(p) == p
  {
    if p != [] {
      assert DotFree(p[0]);
      if |p[0]| > 0 {
        assert p[0][0] in p[0];
        assert p[0][|p[0]| - 1] in p[0];
      }
      assert StripDots(p[0]) == p[0];
      assert AllDotFree(p[1..]) by {
        forall k | 0 <= k < |p[1..]| ensures DotFree(p[1..][k]) { assert p[1..][k] == p[k + 1]; }
      }
      StripEachDotFree(p[1..]);
      assert p == [p[0]] + p[1..];
    }
  }

  /** Joining a concatenation puts a '.' only between two non-empty lists. */
  lemma {:induction false} JoinConcat(a: seq<string>, b: seq<string>)
    ensures Join(a + b) == if a == [] then Join(b) else if b == [] then Join(a) else Join(a) + "." + Join(b)
  {
    if a == [] {
      assert a + b == b;
    } else if b == [] {
      assert a + b == a;
    } else if |a| == 1 {
      assert (a + b)[0] == a[0];
      assert (a + b)[1..] == b;
    } else {
      assert (a + b)[0] == a[0];
      assert (a + b)[1..] == a[1..] + b;
      JoinConcat(a[1..], b);
    }
  }

  /** Joining non-empty segments gives the empty string only for no segment. */
  lemma {:induction false} JoinEmpty(segs: seq<string>)
    requires forall k :: 0 <= k < |segs| ==> segs[k] != ""
    ensures Join(segs) == "" <==> segs == []
  {
    if |segs| >= 2 {
      assert |Join(segs)| >= |segs[0]| + 1;
    } else if |segs| == 1 {
      assert segs[0] != "";
    }
  }

  /** A non-blank string is never empty. */
  lemma NotBlankNonEmpty(s: string)
    requires !IsBlank(s)
    ensures s != ""
  {
  }

  /** On dot-free segments the full path is the non-blank segments joined. */
  lemma FullPathDotFree(p: seq<string>)
    requires AllDotFree(p)
    ensures FullPath(p) == Join(KeepNotBlank(p))
    ensures FullPath(p) == "" <==> KeepNotBlank(p) == []
  {
    KeepNotBlankDotFree(p);
    StripEachDotFree(KeepNotBlank(p));
    var kept := KeepNotBlank(p);
    forall k | 0 <= k < |kept| ensures kept[k] != "" { NotBlankNonEmpty(kept[k]); }
    JoinEmpty(kept);
  }

  // ---------------------------------------------------------------------
  // What the registrar relies on.

  /** Splitting a produced path gives back exactly the non-blank segments. */
  lemma FullPathSegments(p: seq<string>)
    requires AllDotFree(p)
    requires FullPath(p) != ""
    ensures Split(FullPath(p)) == KeepNotBlank(p)
  {
    FullPathDotFree(p);
    KeepNotBlankDotFree(p);
    SplitJoin(KeepNotBlank(p));
  }

  /** A produced path never has an empty or blank segment; the root of an
      empty prefix yields "". */
  lemma FullPathNormalized(p: seq<string>)
    requires AllDotFree(p)
    ensures IsNormalizedPath(FullPath(p))
    ensures p == [] ==> FullPath(p) == ""
  {
    if FullPath(p) != "" {
      FullPathSegments(p);
    }
  }

  /** Joining non-empty dot-free segments leaves no stray separator. */
  lemma {:induction false} JoinNoStrayDots(segs: seq<string>)
    requires forall k :: 0 <= k < |segs| ==> segs[k] != "" && DotFree(segs[k])
    ensures NoStrayDots(Join(segs))
  {
    if |segs| == 1 {
      var x := segs[0];
      assert DotFree(x);
      forall i | 0 <= i < |x| ensures x[i] != '.' { assert x[i] in x; }
    } else if |segs| >= 2 {
      var x, rest := segs[0], segs[1..];
      assert DotFree(x) && x != "";
      forall i | 0 <= i < |x| ensures x[i] != '.' { assert x[i] in x; }
      forall k | 0 <= k < |rest| ensures rest[k] != "" && DotFree(rest[k]) { assert rest[k] == segs[k + 1]; }
      JoinNoStrayDots(rest);
      var j := Join(rest);
      JoinEmpty(rest);
      var s := Join(segs);
      assert s == x + "." + j;
      assert |s| == |x| + 1 + |j|;
      forall i | 0 <= i < |s| - 1 ensures !(s[i] == '.' && s[i + 1] == '.') {
        if i < |x| - 1 {
          assert s[i] == x[i];
        } else if i == |x| - 1 {
          assert s[i] == x[i];
        } else if i == |x| {
          assert s[i + 1] == j[0];
        } else {
          assert s[i] == j[i - |x| - 1] && s[i + 1] == j[i - |x|];
        }
      }
      assert s[0] == x[0];
      assert s[|s| - 1] == j[|j| - 1];
    }
  }

  /** The same property in characters: a produced path has no leading '.',
      no trailing '.' and no "..". */
  lemma FullPathNoStrayDots(p: seq<string>)
    requires AllDotFree(p)
    ensures NoStrayDots(FullPath(p))
  {
    FullPathDotFree(p);
    KeepNotBlankDotFree(p);
    var kept := KeepNotBlank(p);
    forall k | 0 <= k < |kept| ensures kept[k] != "" && DotFree(kept[k]) {
      NotBlankNonEmpty(kept[k]);
    }
    JoinNoStrayDots(kept);
  }

  /** Splitting a produced path and normalising it again returns it unchanged. */
  lemma FullPathIdempotent(p: seq<string>)
    requires AllDotFree(p)
    ensures FullPath(Split(FullPath(p))) == FullPath(p)
  {
    if FullPath(p) == "" {
      assert Split("") == [""];
      assert IsBlank("");
      assert KeepNotBlank([""]) == [];
    } else {
      FullPathSegments(p);
      var kept := KeepNotBlank(p);
      KeepNotBlankDotFree(p);
      KeepNotBlankOfNotBlank(kept);
      FullPathDotFree(kept);
      FullPathDotFree(p);
    }
  }

  /** Idempotence needs dot-free segments: a segment "..", which no split can
      produce, leaves an empty segment behind after stripping. */
  lemma IdempotenceNeedsDotFreeSegments()
    ensures FullPath(["..", "a"]) == ".a"
    ensures FullPath(Split(".a")) == "a"
  {
    assert !IsBlank("..") by { assert ".."[0] == '.' && !IsWhitespace('.'); }
    assert !IsBlank("a") by { assert "a"[0] == 'a' && !IsWhitespace('a'); }
    assert IsBlank("");
    assert ["..", "a"][1..] == ["a"] && ["", "a"][1..] == ["a"] && ["a"][1..] == [];
    assert KeepNotBlank(["..", "a"]) == ["..", "a"];
    assert StripDots("..") == "" && StripDots("a") == "a";
    assert StripEach(["..", "a"]) == ["", "a"];
    assert Split("") == [""];
    SplitCons('a', ""); assert "a" == ['a'] + "";
    SplitCons('.', "a"); assert ".a" == ['.'] + "a";
    assert Split(".a") == ["", "a"];
    assert KeepNotBlank(["", "a"]) == ["a"];
  }

  /** A blank segment anywhere contributes nothing to the path. */
  lemma BlankSegmentIgnored(p: seq<string>, b: string, q: seq<string>)
    requires IsBlank(b)
    ensures FullPath(p + [b] + q) == FullPath(p + q)
  {
    KeepNotBlankConcat(p + [b], q);
    KeepNotBlankConcat(p, [b]);
    KeepNotBlankConcat(p, q);
    assert KeepNotBlank([b]) == [] by { assert [b][1..] == []; }
    assert KeepNotBlank(p + [b]) == KeepNotBlank(p);
    assert KeepNotBlank(p + [b] + q) == KeepNotBlank(p + q);
  }

  /** Splitting at the first separator, after a dot-free piece. */
  lemma SplitAtSeparator(x: string, t: string)
    requires DotFree(x)
    ensures Split(x + "." + t) == [x] + Split(t)
  {
    SplitDotFreeHead(x, "." + t);
    assert x + "." + t == x + ("." + t);
    SplitCons('.', t);
    assert "." + t == ['.'] + t;
    assert x + "" == x;
  }

  /** A dot-free string splits into itself. */
  lemma SplitDotFreeWhole(x: string)
    requires DotFree(x)
    ensures Split(x) == [x]
  {
    SplitDotFreeHead(x, "");
    assert x + "" == x;
  }

  lemma SplitLiteralsAB()
    ensures Split("a..b") == ["a", "", "b"]
    ensures Split("a.b") == ["a", "b"]
  {
    assert DotFree("a") && DotFree("b") && DotFree("");
    SplitDotFreeWhole("b");
    SplitAtSeparator("", "b");
    assert "" + "." + "b" == ".b";
    SplitAtSeparator("a", ".b");
    assert "a" + "." + ".b" == "a..b";
    SplitAtSeparator("a", "b");
    assert "a" + "." + "b" == "a.b";
  }

  lemma SplitLiteralStray()
    ensures Split(" .a.b.") == [" ", "a", "b", ""]
  {
    assert DotFree(" ") && DotFree("a") && DotFree("b") && DotFree("");
    SplitDotFreeWhole("");
    SplitAtSeparator("b", "");
    assert "b" + "." + "" == "b.";
    SplitAtSeparator("a", "b.");
    assert "a" + "." + "b." == "a.b.";
    SplitAtSeparator(" ", "a.b.");
    assert " " + "." + "a.b." == " .a.b.";
  }

  /** Binding at "a..b" or at " .a.b." yields the same path as binding at
      "a.b", whatever the prefix. */
  lemma BlankPiecesIgnored(prefix: seq<string>)
    ensures FullPath(prefix + Split("a..b")) == FullPath(prefix + Split("a.b"))
    ensures FullPath(prefix + Split(" .a.b.")) == FullPath(prefix + Split("a.b"))
  {
    SplitLiteralsAB();
    SplitLiteralStray();
    assert IsBlank("");
    assert IsBlank(" ") by { assert IsWhitespace(' '); }
    BlankSegmentIgnored(prefix + ["a"], "", ["b"]);
    assert prefix + ["a", "", "b"] == prefix + ["a"] + [""] + ["b"];
    assert prefix + ["a", "b"] == prefix + ["a"] + ["b"];
    BlankSegmentIgnored(prefix + ["a", "b"], "", []);
    assert prefix + ["a", "b"] + [""] + [] == prefix + ["a", "b", ""];
    assert prefix + ["a", "b"] + [] == prefix + ["a", "b"];
    BlankSegmentIgnored(prefix, " ", ["a", "b", ""]);
    assert prefix + [" "] + ["a", "b", ""] == prefix + [" ", "a", "b", ""];
  }

  /** Normalising a concatenation of two prefixes is joining their two
      normalisations: a path does not depend on where the two lists meet. */
  lemma FullPathConcat(p: seq<string>, q: seq<string>)
    requires AllDotFree(p) && AllDotFree(q)
    ensures FullPath(p + q) == JoinPath(FullPath(p), FullPath(q))
  {
    assert AllDotFree(p + q) by {
      forall k | 0 <= k < |p + q| ensures DotFree((p + q)[k]) {
        if k < |p| { assert (p + q)[k] == p[k]; } else { assert (p + q)[k] == q[k - |p|]; }
      }
    }
    FullPathDotFree(p + q);
    FullPathDotFree(p);
    FullPathDotFree(q);
    KeepNotBlankConcat(p, q);
    JoinConcat(KeepNotBlank(p), KeepNotBlank(q));
  }
}
