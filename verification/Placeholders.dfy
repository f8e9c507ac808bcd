/**
 Restoring redacted text: the mappings are applied one after another, each by a replace-all over the whole text
 (`restore_placeholders` in guardrails.rs). The text is read as pieces, literal characters and holes, and a hole shows
 its placeholder until its mapping has been applied.
 */
module Placeholders {

  datatype Mapping = Mapping(placeholder: string, original: string)

  // ----- the source's operations -----

  /** `str::replace`: every occurrence, leftmost first, without overlap. */
  function ReplaceAll(s: string, pattern: string, value: string): string {
    if pattern == [] then Interleaved(s, value)
    else if s == [] then []
    else if pattern <= s then value + ReplaceAll(s[|pattern|..], pattern, value)
    else s[..1] + ReplaceAll(s[1..], pattern, value)
  }

  /** What `str::replace` makes of the empty pattern: it matches around every character. */
  function Interleaved(s: string, value: string): string {
    if s == [] then value else value + s[..1] + Interleaved(s[1..], value)
  }

  /** A placeholder opens with its only '[' and closes with its only ']'. */
  predicate Marker(p: string) {
    && |p| >= 2 && p[0] == '[' && p[|p| - 1] == ']'
    && forall i :: 0 < i < |p| - 1 ==> p[i] != '[' && p[i] != ']'
  }

  predicate Bracketless(o: string) { o != [] && '[' !in o && ']' !in o }

  predicate At(o: string, p: string, i: nat) { i <= |p| && o <= p[i..] }

  ghost predicate Inside(o: string, p: string) { exists i: nat :: At(o, p, i) }

  /** Distinct markers, and originals that neither hold a bracket nor occur within a marker. */
  ghost predicate Restorable(ms: seq<Mapping>) {
    && (forall i :: 0 <= i < |ms| ==> Marker(ms[i].placeholder) && Bracketless(ms[i].original))
    && (forall i, j :: 0 <= i < j < |ms| ==> ms[i].placeholder != ms[j].placeholder)
    && (forall i, j :: 0 <= i < |ms| && 0 <= j < |ms| ==> !Inside(ms[i].original, ms[j].placeholder))
  }

  ghost predicate Markers(ms: seq<Mapping>) { forall i :: 0 <= i < |ms| ==> Marker(ms[i].placeholder) }

  /** The text once the first `n` mappings have been applied in order. */
  function Restored(s: string, ms: seq<Mapping>, n: nat): string
    requires n <= |ms|
  {
    if n == 0 then s else ReplaceAll(Restored(s, ms, n - 1), ms[n - 1].placeholder, ms[n - 1].original)
  }

  method RestoreText(s: string, ms: seq<Mapping>) returns (text: string)
    ensures text == Restored(s, ms, |ms|)
  {
    text := s;
    for i := 0 to |ms|
      invariant text == Restored(s, ms, i)
    {
      text := ReplaceAll(text, ms[i].placeholder, ms[i].original);
    }
  }

  // ----- pieces -----

  /** `Hole(k)` stands for the k-th mapping. */
  datatype Piece = Lit(c: char) | Hole(k: nat)

  ghost predicate Holes(ps: seq<Piece>, ms: seq<Mapping>) {
    forall i :: 0 <= i < |ps| && ps[i].Hole? ==> ps[i].k < |ms|
  }

  ghost function Shown(p: Piece, ms: seq<Mapping>, n: nat): string
    requires p.Hole? ==> p.k < |ms|
  {
    if p.Lit? then [p.c] else if p.k < n then ms[p.k].original else ms[p.k].placeholder
  }

  /** How the pieces read once the first `n` mappings have been applied. */
  ghost function Render(ps: seq<Piece>, ms: seq<Mapping>, n: nat): string
    requires Holes(ps, ms)
  {
    if ps == [] then [] else Shown(ps[0], ms, n) + Render(ps[1..], ms, n)
  }

  function Literals(s: string): (r: seq<Piece>)
    ensures |r| == |s| && forall i :: 0 <= i < |s| ==> r[i] == Lit(s[i])
  {
    if s == [] then [] else [Lit(s[0])] + Literals(s[1..])
  }

  /** The placeholder is spelled out by literal characters at the front. */
  ghost predicate Spelled(ps: seq<Piece>, p: string) { Literals(p) <= ps }

  ghost predicate SpelledAny(ps: seq<Piece>, ms: seq<Mapping>) {
    exists k :: 0 <= k < |ms| && Spelled(ps, ms[k].placeholder)
  }

  /** No placeholder is spelled out anywhere. */
  ghost predicate Clean(ps: seq<Piece>, ms: seq<Mapping>) {
    ps != [] ==> !SpelledAny(ps, ms) && Clean(ps[1..], ms)
  }

  lemma {:induction false} RenderConcat(a: seq<Piece>, b: seq<Piece>, ms: seq<Mapping>, n: nat)
    requires Holes(a, ms) && Holes(b, ms)
    ensures Render(a + b, ms, n) == Render(a, ms, n) + Render(b, ms, n)
  {
    hide Shown;
    if a == [] {
      assert a + b == b;
    } else {
      assert (a + b)[1..] == a[1..] + b;
      RenderConcat(a[1..], b, ms, n);
    }
  }

  lemma {:induction false} RenderLiterals(s: string, ms: seq<Mapping>, n: nat)
    ensures Render(Literals(s), ms, n) == s
  {
    if s != [] { RenderLiterals(s[1..], ms, n); }
  }

  // ----- a marker that shows up in the text was spelled by literals -----

  lemma {:induction false} TailIsSpelled(ps: seq<Piece>, ms: seq<Mapping>, n: nat, p: string, a: nat)
    requires Restorable(ms) && Holes(ps, ms) && 0 < a <= |p| && Marker(p)
    requires forall k :: 0 <= k < |ms| ==> !Inside(ms[k].original, p)
    requires p[a..] <= Render(ps, ms, n)
    ensures Literals(p[a..]) <= ps
    decreases |p| - a
  {
    hide Restorable, Inside;
    if a < |p| {
      var w := p[a..];
      if ps[0].Hole? { HoleHides(ps, ms, n, p, a); }
      LitInFront(ps, ms, n, w);
      assert w[1..] == p[a + 1..];
      TailIsSpelled(ps[1..], ms, n, p, a + 1);
      SpelledOneMore(ps, w);
    }
  }

  lemma SpelledOneMore(ps: seq<Piece>, w: string)
    requires ps != [] && w != [] && ps[0] == Lit(w[0]) && Literals(w[1..]) <= ps[1..]
    ensures Literals(w) <= ps
  {
    assert ps == [ps[0]] + ps[1..];
  }

  lemma LitInFront(ps: seq<Piece>, ms: seq<Mapping>, n: nat, w: string)
    requires Holes(ps, ms) && ps != [] && ps[0].Lit? && w != [] && w <= Render(ps, ms, n)
    ensures ps[0].c == w[0] && w[1..] <= Render(ps[1..], ms, n)
  {
    var rest := Render(ps[1..], ms, n);
    assert Render(ps, ms, n) == [ps[0].c] + rest;
    assert ([ps[0].c] + rest)[1..] == rest;
  }

  lemma HoleHides(ps: seq<Piece>, ms: seq<Mapping>, n: nat, p: string, a: nat)
    requires Restorable(ms) && Holes(ps, ms) && 0 < a < |p| && Marker(p)
    requires ps != [] && ps[0].Hole? && !Inside(ms[ps[0].k].original, p)
    ensures !(p[a..] <= Render(ps, ms, n))
  {
    hide Inside;
    var k, rest := ps[0].k, Render(ps[1..], ms, n);
    if k < n {
      NotThrough(p, a, ms[k].original, rest);
    } else {
      assert (ms[k].placeholder + rest)[0] == '[' && p[a..][0] == p[a];
    }
  }

  lemma NotThrough(p: string, a: nat, o: string, rest: string)
    requires Marker(p) && 0 < a < |p| && Bracketless(o) && !Inside(o, p)
    ensures !(p[a..] <= o + rest)
  {
    var w := p[a..];
    if |o| >= |w| {
      assert (o + rest)[|w| - 1] == o[|w| - 1] && o[|w| - 1] in o;
    } else {
      assert !At(o, p, a);
      assert (o + rest)[..|o|] == o;
    }
  }

  lemma FrontIsSpelled(ps: seq<Piece>, ms: seq<Mapping>, n: nat, k: nat)
    requires Restorable(ms) && Holes(ps, ms) && k < |ms| && ps != [] && ps[0].Lit?
    requires ms[k].placeholder <= Render(ps, ms, n)
    ensures Spelled(ps, ms[k].placeholder)
  {
    hide Inside;
    var p := ms[k].placeholder;
    LitInFront(ps, ms, n, p);
    assert p[1..] == p[1..];
    TailIsSpelled(ps[1..], ms, n, p, 1);
    SpelledOneMore(ps, p);
  }

  // ----- one replacement -----

  lemma SkipChar(c: char, rest: string, p: string, value: string)
    requires p != [] && !(p <= [c] + rest)
    ensures ReplaceAll([c] + rest, p, value) == [c] + ReplaceAll(rest, p, value)
  {
    assert ([c] + rest)[1..] == rest;
  }

  lemma {:induction false} SkipBracketless(a: string, rest: string, p: string, value: string)
    requires Marker(p) && '[' !in a
    ensures ReplaceAll(a + rest, p, value) == a + ReplaceAll(rest, p, value)
  {
    hide ReplaceAll;
    if a == [] {
      assert a + rest == rest;
    } else {
      var tail := a[1..];
      assert a == [a[0]] + tail && a + rest == [a[0]] + (tail + rest);
      assert a[0] in a;
      SkipChar(a[0], tail + rest, p, value);
      SkipBracketless(tail, rest, p, value);
    }
  }

  lemma MarkersDiffer(p: string, q: string, rest: string)
    requires Marker(p) && Marker(q) && p <= q + rest
    ensures p == q
  {
    var i := (if |p| <= |q| then |p| else |q|) - 1;
    assert p[i] == (q + rest)[i] == q[i];
    assert |p| == |q| && (q + rest)[..|q|] == q;
  }

  lemma SkipMarker(q: string, rest: string, p: string, value: string)
    requires Marker(p) && Marker(q) && p != q
    ensures ReplaceAll(q + rest, p, value) == q + ReplaceAll(rest, p, value)
  {
    hide ReplaceAll;
    if p <= q + rest { MarkersDiffer(p, q, rest); }
    var tail := q[1..];
    assert q == [q[0]] + tail && q + rest == [q[0]] + (tail + rest);
    SkipChar(q[0], tail + rest, p, value);
    forall i | 0 <= i < |tail| ensures tail[i] != '[' { assert tail[i] == q[i + 1]; }
    SkipBracketless(tail, rest, p, value);
  }

  lemma TakeMarker(rest: string, p: string, value: string)
    requires p != []
    ensures ReplaceAll(p + rest, p, value) == value + ReplaceAll(rest, p, value)
  {
    assert p <= p + rest && (p + rest)[|p|..] == rest;
  }

  lemma ReplaceNothing(p: string, value: string)
    requires p != []
    ensures ReplaceAll([], p, value) == []
  {
  }

  /** Applying one mapping fills exactly its holes. */
  lemma {:induction false} ReplaceFills(ps: seq<Piece>, ms: seq<Mapping>, n: nat)
    requires Restorable(ms) && Holes(ps, ms) && Clean(ps, ms) && n < |ms|
    ensures ReplaceAll(Render(ps, ms, n), ms[n].placeholder, ms[n].original) == Render(ps, ms, n + 1)
  {
    hide ReplaceAll, Inside, Spelled;
    if ps == [] {
      ReplaceNothing(ms[n].placeholder, ms[n].original);
    } else {
      ReplaceFills(ps[1..], ms, n);
      var p, o, rest := ms[n].placeholder, ms[n].original, Render(ps[1..], ms, n);
      if ps[0].Lit? {
        if p <= [ps[0].c] + rest { FrontIsSpelled(ps, ms, n, n); }
        SkipChar(ps[0].c, rest, p, o);
      } else if ps[0].k == n {
        TakeMarker(rest, p, o);
      } else if ps[0].k < n {
        SkipBracketless(ms[ps[0].k].original, rest, p, o);
      } else {
        SkipMarker(ms[ps[0].k].placeholder, rest, p, o);
      }
    }
  }

  lemma {:induction false} RestoredFills(ps: seq<Piece>, ms: seq<Mapping>, n: nat)
    requires Restorable(ms) && Holes(ps, ms) && Clean(ps, ms) && n <= |ms|
    ensures Restored(Render(ps, ms, 0), ms, n) == Render(ps, ms, n)
  {
    hide ReplaceAll, Inside, Clean, Render;
    if n > 0 {
      RestoredFills(ps, ms, n - 1);
      ReplaceFills(ps, ms, n - 1);
    }
  }

  // ----- placeholders that were in the text all along -----

  /** Reads every spelled-out placeholder as a hole. */
  ghost function Recognised(ps: seq<Piece>, ms: seq<Mapping>): seq<Piece>
    requires Markers(ms)
    decreases |ps|
  {
    if ps == [] then []
    else if SpelledAny(ps, ms) then
      var k :| 0 <= k < |ms| && Spelled(ps, ms[k].placeholder);
      [Hole(k)] + Recognised(ps[|ms[k].placeholder|..], ms)
    else [ps[0]] + Recognised(ps[1..], ms)
  }

  /** Recognising leaves the text as it reads, and changes what it restores to unless there was nothing to recognise. */
  lemma {:induction false} RecognisedReads(ps: seq<Piece>, ms: seq<Mapping>)
    requires Markers(ms) && Holes(ps, ms)
    ensures Holes(Recognised(ps, ms), ms)
    ensures Render(Recognised(ps, ms), ms, 0) == Render(ps, ms, 0)
    decreases |ps|
  {
    hide Inside, Marker;
    if ps != [] {
      if SpelledAny(ps, ms) {
        var k :| 0 <= k < |ms| && Spelled(ps, ms[k].placeholder)
            && Recognised(ps, ms) == [Hole(k)] + Recognised(ps[|ms[k].placeholder|..], ms);
        var p := ms[k].placeholder;
        SplitSpelled(ps, p);
        RecognisedReads(ps[|p|..], ms);
        RenderConcat(Literals(p), ps[|p|..], ms, 0);
        RenderLiterals(p, ms, 0);
      } else {
        RecognisedReads(ps[1..], ms);
      }
    }
  }

  lemma SplitSpelled(ps: seq<Piece>, p: string)
    requires Spelled(ps, p)
    ensures |p| <= |ps| && ps == Literals(p) + ps[|p|..]
  {
    hide Literals;
    PrefixSplits(Literals(p), ps);
  }

  lemma PrefixSplits(front: seq<Piece>, ps: seq<Piece>)
    requires front <= ps
    ensures ps == front + ps[|front|..]
  {
  }

  /** Literals in front of recognised pieces were literals before. */
  lemma {:induction false} RecognisedLiterals(ps: seq<Piece>, ms: seq<Mapping>, w: string)
    requires Markers(ms) && Literals(w) <= Recognised(ps, ms)
    ensures Literals(w) <= ps
    decreases |ps|
  {
    hide Spelled, Literals;
    if w != [] {
      var r := Recognised(ps, ms);
      assert r[0] == Literals(w)[0] == Lit(w[0]);
      assert !SpelledAny(ps, ms) && r == [ps[0]] + Recognised(ps[1..], ms);
      assert Literals(w)[1..] == Literals(w[1..]) by { LiteralsTail(w); }
      assert r[1..] == Recognised(ps[1..], ms);
      RecognisedLiterals(ps[1..], ms, w[1..]);
      SpelledOneMore(ps, w);
    }
  }

  lemma LiteralsTail(w: string)
    requires w != []
    ensures Literals(w)[1..] == Literals(w[1..])
  {
  }

  lemma {:induction false} RecognisedIsClean(ps: seq<Piece>, ms: seq<Mapping>)
    requires Restorable(ms)
    ensures Clean(Recognised(ps, ms), ms)
    decreases |ps|
  {
    hide Inside;
    if ps != [] {
      var r := Recognised(ps, ms);
      if SpelledAny(ps, ms) {
        var k :| 0 <= k < |ms| && Spelled(ps, ms[k].placeholder)
            && r == [Hole(k)] + Recognised(ps[|ms[k].placeholder|..], ms);
        RecognisedIsClean(ps[|ms[k].placeholder|..], ms);
        assert r[1..] == Recognised(ps[|ms[k].placeholder|..], ms);
        assert !SpelledAny(r, ms);
      } else {
        RecognisedIsClean(ps[1..], ms);
        assert r[1..] == Recognised(ps[1..], ms);
        if SpelledAny(r, ms) {
          var k :| 0 <= k < |ms| && Spelled(r, ms[k].placeholder);
          RecognisedLiterals(ps, ms, ms[k].placeholder);
        }
      }
    }
  }

  /** A hole never restores to a '['. */
  lemma HoleRestoresElse(ps: seq<Piece>, rest: seq<Piece>, ms: seq<Mapping>, k: nat)
    requires Restorable(ms) && Holes(ps, ms) && Holes([Hole(k)] + rest, ms) && k < |ms|
    requires Spelled(ps, ms[k].placeholder)
    ensures Render([Hole(k)] + rest, ms, |ms|) != Render(ps, ms, |ms|)
  {
    hide Inside, Literals;
    var r, o := [Hole(k)] + rest, ms[k].original;
    assert ps[0] == Literals(ms[k].placeholder)[0] == Lit('[');
    assert Render(ps, ms, |ms|)[0] == '[';
    assert r[0] == Hole(k);
    assert o[0] in o && Render(r, ms, |ms|)[0] == o[0];
  }

  /** Recognising anything changes what the text restores to. */
  lemma {:induction false} RecognisedRestores(ps: seq<Piece>, ms: seq<Mapping>)
    requires Restorable(ms) && Holes(ps, ms) && Holes(Recognised(ps, ms), ms)
    ensures Render(Recognised(ps, ms), ms, |ms|) == Render(ps, ms, |ms|) <==> Clean(ps, ms)
    decreases |ps|
  {
    hide Inside, Literals, Bracketless;
    if ps != [] {
      var r := Recognised(ps, ms);
      if SpelledAny(ps, ms) {
        var k :| 0 <= k < |ms| && Spelled(ps, ms[k].placeholder)
            && r == [Hole(k)] + Recognised(ps[|ms[k].placeholder|..], ms);
        HoleRestoresElse(ps, Recognised(ps[|ms[k].placeholder|..], ms), ms, k);
      } else {
        assert r[1..] == Recognised(ps[1..], ms) && r[0] == ps[0];
        RecognisedRestores(ps[1..], ms);
        SameFront(Shown(ps[0], ms, |ms|), Render(r[1..], ms, |ms|), Render(ps[1..], ms, |ms|));
      }
    }
  }

  lemma SameFront(a: string, b: string, c: string)
    ensures a + b == a + c <==> b == c
  {
    assert (a + b)[|a|..] == b && (a + c)[|a|..] == c;
  }

  // ----- where the placeholders were in the original text -----

  lemma {:induction false} CleanIsAbsence(ps: seq<Piece>, ms: seq<Mapping>)
    requires Restorable(ms) && Holes(ps, ms)
    ensures Clean(ps, ms) <==> forall k :: 0 <= k < |ms| ==> !Inside(ms[k].placeholder, Render(ps, ms, |ms|))
  {
    hide Inside, Spelled, Clean, Render;
    if !Clean(ps, ms) {
      var k := DirtyShows(ps, ms);
    }
    if k :| 0 <= k < |ms| && Inside(ms[k].placeholder, Render(ps, ms, |ms|)) {
      ShownIsDirty(ps, ms, k);
    }
  }

  lemma {:induction false} DirtyShows(ps: seq<Piece>, ms: seq<Mapping>) returns (k: nat)
    requires Restorable(ms) && Holes(ps, ms) && !Clean(ps, ms)
    ensures k < |ms| && Inside(ms[k].placeholder, Render(ps, ms, |ms|))
  {
    hide Inside, Spelled;
    if SpelledAny(ps, ms) {
      k :| 0 <= k < |ms| && Spelled(ps, ms[k].placeholder);
      var p := ms[k].placeholder;
      SplitSpelled(ps, p);
      RenderConcat(Literals(p), ps[|p|..], ms, |ms|);
      RenderLiterals(p, ms, |ms|);
      InsideFront(p, Render(ps[|p|..], ms, |ms|));
    } else {
      k := DirtyShows(ps[1..], ms);
      InsideMore(ms[k].placeholder, Shown(ps[0], ms, |ms|), Render(ps[1..], ms, |ms|));
    }
  }

  lemma InsideFront(p: string, rest: string)
    ensures Inside(p, p + rest)
  {
    assert At(p, p + rest, 0);
  }

  lemma InsideMore(p: string, a: string, b: string)
    requires Inside(p, b)
    ensures Inside(p, a + b)
  {
    var i: nat :| At(p, b, i);
    assert (a + b)[|a| + i..] == b[i..];
    assert At(p, a + b, |a| + i);
  }

  /**
   A marker within `a + b` starts at the front or lies within `b`, if only the first character of `a` could open it.
   */
  lemma InsideLess(p: string, a: string, b: string)
    requires Marker(p) && Inside(p, a + b) && (forall i :: 0 < i < |a| ==> a[i] != '[')
    ensures p <= a + b || Inside(p, b)
  {
    var t := a + b;
    var i: nat :| At(p, t, i);
    assert t[i] == t[i..][0] == p[0];
    if i > 0 {
      assert i >= |a| && t[i..] == b[i - |a|..];
      assert At(p, b, i - |a|);
    }
  }

  lemma {:induction false} ShownIsDirty(ps: seq<Piece>, ms: seq<Mapping>, k: nat)
    requires Restorable(ms) && Holes(ps, ms) && k < |ms| && Inside(ms[k].placeholder, Render(ps, ms, |ms|))
    ensures !Clean(ps, ms)
  {
    hide Inside, Spelled;
    var p := ms[k].placeholder;
    if ps == [] {
      NothingInside(p);
    } else {
      var a, b := Shown(ps[0], ms, |ms|), Render(ps[1..], ms, |ms|);
      if ps[0].Hole? { BracketlessFront(p, a, b); }
      InsideLess(p, a, b);
      if Inside(p, b) {
        ShownIsDirty(ps[1..], ms, k);
      } else {
        FrontIsSpelled(ps, ms, |ms|, k);
      }
    }
  }

  lemma BracketlessFront(p: string, a: string, b: string)
    requires Marker(p) && Bracketless(a)
    ensures !(p <= a + b)
  {
    assert (a + b)[0] == a[0] && a[0] in a;
  }

  lemma NothingInside(p: string)
    requires p != []
    ensures !Inside(p, [])
  {
  }

  /**
   Restoring what the pieces read as gives back what they stand for exactly when that text spells out no placeholder
   of its own.
   */
  lemma RestoresUnlessSpelled(ps: seq<Piece>, ms: seq<Mapping>)
    requires Restorable(ms) && Holes(ps, ms)
    ensures Restored(Render(ps, ms, 0), ms, |ms|) == Render(ps, ms, |ms|) <==>
            forall k :: 0 <= k < |ms| ==> !Inside(ms[k].placeholder, Render(ps, ms, |ms|))
  {
    hide Restored, Render, Clean, Recognised, Inside, Holes;
    var r := Recognised(ps, ms);
    RecognisedReads(ps, ms);
    RecognisedIsClean(ps, ms);
    RestoredFills(r, ms, |ms|);
    RecognisedRestores(ps, ms);
    CleanIsAbsence(ps, ms);
  }
}
