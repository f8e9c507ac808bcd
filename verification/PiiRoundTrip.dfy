/**
 Redacting and restoring are inverse, exactly as long as the value spells out no placeholder that redaction issued.
 */
module PiiRoundTrip {
  import opened Placeholders
  import opened PiiRedaction

  // ----- numerals -----

  const LIMIT: nat := 1_000_000_000

  function Power(e: nat): (r: nat)
    ensures r > 0
  {
    if e == 0 then 1 else 10 * Power(e - 1)
  }

  lemma {:induction false} DecimalLength(n: nat, e: nat)
    requires 0 < e && n < Power(e)
    ensures |Decimal(n)| <= e
  {
    if n >= 10 { DecimalLength(n / 10, e - 1); }
  }

  lemma ShortDecimal(n: nat)
    requires n < LIMIT
    ensures |Decimal(n)| <= 9
  {
    assert Power(3) == 1000;
    assert Power(6) == 1_000_000;
    assert Power(9) == LIMIT;
    DecimalLength(n, 9);
  }

  lemma {:induction false} DecimalInjective(m: nat, n: nat)
    requires Decimal(m) == Decimal(n)
    ensures m == n
  {
    var a, b := Decimal(m), Decimal(n);
    assert a[|a| - 1] == '0' + (m % 10) as char && b[|b| - 1] == '0' + (n % 10) as char;
    DecimalPrefix(m);
    DecimalPrefix(n);
    if m >= 10 && n >= 10 { DecimalInjective(m / 10, n / 10); }
  }

  lemma DecimalPrefix(n: nat)
    ensures n < 10 ==> |Decimal(n)| == 1
    ensures n >= 10 ==> |Decimal(n)| > 1 && Decimal(n)[..|Decimal(n)| - 1] == Decimal(n / 10)
  {
  }

  lemma {:induction false} DigitsConcat(a: string, b: string)
    ensures Digits(a + b) == Digits(a) + Digits(b)
  {
    if a == [] {
      assert a + b == b;
    } else {
      assert (a + b)[1..] == a[1..] + b;
      DigitsConcat(a[1..], b);
    }
  }

  lemma {:induction false} DigitsAtMost(s: string)
    ensures Digits(s) <= |s|
    ensures (forall c :: c in s ==> !Digit(c)) ==> Digits(s) == 0
  {
    if s != [] { DigitsAtMost(s[1..]); }
  }

  // ----- placeholders -----

  /** Everything between the brackets, and that none of it is a bracket. */
  lemma PlaceholderIsMarker(k: Kind, n: nat)
    ensures Marker(Placeholder(k, n))
    ensures '@' !in Placeholder(k, n) && '-' !in Placeholder(k, n)
  {
    hide Decimal;
    var d := Decimal(n);
    assert forall i :: 0 <= i < |d| ==> d[i] in d;
  }

  lemma PlaceholderDigits(k: Kind, n: nat)
    requires n < LIMIT
    ensures Digits(Placeholder(k, n)) <= 9
  {
    hide Decimal, Digits;
    ShortDecimal(n);
    DigitsAtMost(Decimal(n));
    var front := "[" + Label(k) + "_";
    DigitsConcat(front + Decimal(n), "]");
    DigitsConcat(front, Decimal(n));
    DigitsAtMost(front);
    DigitsAtMost("]");
  }

  lemma PlaceholderInjective(k: Kind, m: nat, l: Kind, n: nat)
    requires Placeholder(k, m) == Placeholder(l, n)
    ensures k == l && m == n
  {
    hide Decimal;
    var a, b := Placeholder(k, m), Placeholder(l, n);
    assert a[1] == Label(k)[0] && b[1] == Label(l)[0];
    var i := |Label(k)| + 2;
    assert a[i..|a| - 1] == Decimal(m) && b[i..|b| - 1] == Decimal(n);
    DecimalInjective(m, n);
  }

  // ----- what redaction issues -----

  ghost predicate Issued(m: Mapping, k: Kind, n: nat) {
    && m.placeholder == Placeholder(k, n)
    && LooksLike(k, m.original)
    && forall c :: c in m.original ==> TokenChar(c, k)
  }

  ghost predicate IssuedBy(m: Mapping, t: Tally) { exists k, n: nat :: 1 <= n <= Count(t, k) && Issued(m, k, n) }

  ghost predicate Listed(t: Tally, p: string) { exists i :: 0 <= i < |t.mappings| && t.mappings[i].placeholder == p }

  /** The mappings list each issued placeholder, once. */
  ghost predicate Consistent(t: Tally) {
    && (forall i :: 0 <= i < |t.mappings| ==> IssuedBy(t.mappings[i], t))
    && (forall i, j :: 0 <= i < j < |t.mappings| ==> t.mappings[i].placeholder != t.mappings[j].placeholder)
    && (forall k, n: nat :: 1 <= n <= Count(t, k) ==> Listed(t, Placeholder(k, n)))
  }

  ghost predicate Small(t: Tally) { t.emails < LIMIT && t.ssns < LIMIT && t.phones < LIMIT }

  lemma IssuedIsBracketless(m: Mapping, k: Kind, n: nat)
    requires Issued(m, k, n)
    ensures Bracketless(m.original)
    ensures k == Email ==> '@' in m.original
    ensures k == Ssn ==> '-' in m.original
    ensures k == Phone ==> Digits(m.original) >= 10
  {
    hide Placeholder;
  }

  lemma IssuedIsForeign(m: Mapping, k: Kind, n: nat, l: Kind, j: nat)
    requires Issued(m, k, n) && j < LIMIT
    ensures !Inside(m.original, Placeholder(l, j))
  {
    hide Placeholder, Issued, Digits;
    IssuedIsBracketless(m, k, n);
    PlaceholderIsMarker(l, j);
    PlaceholderDigits(l, j);
    var o, p := m.original, Placeholder(l, j);
    forall i: nat ensures !At(o, p, i) {
      if i <= |p| && o <= p[i..] {
        CutOut(o, p, i);
      }
    }
  }

  lemma CutOut(o: string, p: string, i: nat)
    requires At(o, p, i)
    ensures Digits(o) <= Digits(p) && forall c :: c in o ==> c in p
  {
    hide Digits;
    var rest := p[i + |o|..];
    assert p[i..] == o + rest && p == p[..i] + (o + rest);
    DigitsConcat(p[..i], o + rest);
    DigitsConcat(o, rest);
  }

  lemma ConsistentIsRestorable(t: Tally)
    requires Consistent(t) && Small(t)
    ensures Restorable(t.mappings)
  {
    hide Issued, Placeholder, Marker, Bracketless, Inside, Listed;
    var ms := t.mappings;
    forall i | 0 <= i < |ms| ensures Marker(ms[i].placeholder) && Bracketless(ms[i].original) {
      var k, n := Issuer(t, i);
    }
    forall i, j | 0 <= i < |ms| && 0 <= j < |ms| ensures !Inside(ms[i].original, ms[j].placeholder) {
      var k, n := Issuer(t, i);
      var l, m := Issuer(t, j);
      IssuedIsForeign(ms[i], k, n, l, m);
    }
  }

  lemma Issuer(t: Tally, i: nat) returns (k: Kind, n: nat)
    requires Consistent(t) && Small(t) && i < |t.mappings|
    ensures Issued(t.mappings[i], k, n) && 1 <= n < LIMIT && t.mappings[i].placeholder == Placeholder(k, n)
    ensures Marker(t.mappings[i].placeholder) && Bracketless(t.mappings[i].original)
  {
    hide Placeholder, Marker, Bracketless, LooksLike, TokenChar;
    assert IssuedBy(t.mappings[i], t);
    k, n :| 1 <= n <= Count(t, k) && Issued(t.mappings[i], k, n);
    IssuedIsBracketless(t.mappings[i], k, n);
    PlaceholderIsMarker(k, n);
  }

  // ----- trimming a token -----

  lemma {:induction false} TrimStartSplits(s: string) returns (a: string)
    ensures s == a + TrimStart(s) && forall c :: c in a ==> Trimmable(c)
    ensures TrimStart(s) != [] ==> !Trimmable(TrimStart(s)[0])
  {
    a := [];
    if s != [] && Trimmable(s[0]) {
      var b := TrimStartSplits(s[1..]);
      a := [s[0]] + b;
      assert s == [s[0]] + s[1..];
    }
  }

  lemma {:induction false} TrimEndSplits(s: string) returns (b: string)
    ensures s == TrimEnd(s) + b
  {
    b := [];
    if s != [] && Trimmable(s[|s| - 1]) {
      var a := TrimEndSplits(s[..|s| - 1]);
      b := a + [s[|s| - 1]];
      assert s == s[..|s| - 1] + [s[|s| - 1]];
    }
  }

  lemma {:induction false} ReplaceFirstSkips(a: string, o: string, b: string, p: string)
    requires o != [] && !Trimmable(o[0]) && forall c :: c in a ==> Trimmable(c)
    ensures ReplaceFirst(a + (o + b), o, p) == a + (p + b)
  {
    if a == [] {
      assert a + (o + b) == o + b && (o + b)[|o|..] == b;
      assert o <= o + b;
    } else {
      var s := a + (o + b);
      assert s[0] == a[0] && a[0] in a;
      assert s[1..] == a[1..] + (o + b) && s[..1] == a[..1];
      ReplaceFirstSkips(a[1..], o, b, p);
      assert a == a[..1] + a[1..];
    }
  }

  /** The first occurrence of the trimmed part is where trimming left it. */
  lemma TrimSplits(token: string, p: string) returns (a: string, b: string)
    requires Trim(token) != []
    ensures token == a + (Trim(token) + b)
    ensures ReplaceFirst(token, Trim(token), p) == a + (p + b)
  {
    hide TrimStart, TrimEnd, ReplaceFirst, Trimmable;
    a := TrimStartSplits(token);
    b := TrimEndSplits(TrimStart(token));
    var o := Trim(token);
    assert o[0] == TrimStart(token)[0];
    ReplaceFirstSkips(a, o, b, p);
  }

  lemma MatchIsNotEmpty(k: Kind, s: string)
    requires LooksLike(k, s)
    ensures s != []
  {
  }

  // ----- one pass, on pieces -----

  lemma {:induction false} ReadConcat(s: Scan, a: string, b: string, k: Kind, collect: bool)
    ensures ReadAll(s, a + b, k, collect) == ReadAll(ReadAll(s, a, k, collect), b, k, collect)
  {
    hide Read;
    if b == [] {
      assert a + b == a;
    } else {
      var init := b[..|b| - 1];
      assert (a + b)[..|a + b| - 1] == a + init;
      ReadConcat(s, a, init, k, collect);
    }
  }

  lemma {:induction false} ReadPlain(s: Scan, w: string, k: Kind, collect: bool)
    requires s.token == [] && forall c :: c in w ==> !TokenChar(c, k)
    ensures ReadAll(s, w, k, collect) == Scan(s.out + w, [], s.tally)
  {
    hide TokenChar;
    if w == [] {
      assert s.out + w == s.out;
    } else {
      ReadPlain(s, w[..|w| - 1], k, collect);
      assert s.out + w[..|w| - 1] + [w[|w| - 1]] == s.out + w;
    }
  }

  lemma {:induction false} ReadToken(s: Scan, w: string, k: Kind, collect: bool)
    requires forall c :: c in w ==> TokenChar(c, k)
    ensures ReadAll(s, w, k, collect) == Scan(s.out, s.token + w, s.tally)
  {
    hide TokenChar, Push;
    if w == [] {
      assert s.token + w == s.token;
    } else {
      ReadToken(s, w[..|w| - 1], k, collect);
      assert s.token + w[..|w| - 1] + [w[|w| - 1]] == s.token + w;
    }
  }

  lemma ReadOne(s: Scan, c: char, k: Kind, collect: bool)
    ensures ReadAll(s, [c], k, collect) == Read(s, c, k, collect)
  {
    hide Read;
    assert [c][..0] == [];
    assert ReadAll(s, [], k, collect) == s;
  }

  /** The number of a placeholder is no match of its own: it has no '-' and too few digits. */
  lemma NumberIsNoMatch(n: nat, k: Kind)
    requires k != Email && n < LIMIT
    ensures !LooksLike(k, Trim(Decimal(n)))
  {
    hide Decimal, Trim, Digits;
    var d := Decimal(n);
    var o := Trim(d);
    if o != [] {
      var a, b := TrimSplits(d, []);
      assert forall c :: c in o ==> c in d;
      ShortDecimal(n);
      DigitsAtMost(o);
    } else {
      DigitsAtMost(o);
    }
  }

  /** A later pass reads over a placeholder and leaves it as it is. */
  lemma ReadPlaceholder(s: Scan, l: Kind, n: nat, k: Kind, collect: bool)
    requires k != Email && n < LIMIT
    ensures var pushed := Push(s, k, collect);
            ReadAll(s, Placeholder(l, n), k, collect) == Scan(pushed.out + Placeholder(l, n), [], pushed.tally)
  {
    hide *;
    var pushed := Push(s, k, collect);
    var front, number := ['['] + (Label(l) + "_"), Decimal(n) + [']'];
    ReadFront(s, l, k, collect);
    ReadNumber(Scan(pushed.out + front, [], pushed.tally), n, k, collect);
    ReadConcat(s, front, number, k, collect);
    PlaceholderParts(l, n);
    assert pushed.out + front + number == pushed.out + (front + number);
  }

  lemma PlaceholderParts(l: Kind, n: nat)
    ensures Placeholder(l, n) == ['['] + (Label(l) + "_") + (Decimal(n) + [']'])
  {
    hide Decimal;
  }

  lemma ReadFront(s: Scan, l: Kind, k: Kind, collect: bool)
    requires k != Email
    ensures var pushed := Push(s, k, collect);
            ReadAll(s, ['['] + (Label(l) + "_"), k, collect) ==
                Scan(pushed.out + (['['] + (Label(l) + "_")), [], pushed.tally)
  {
    hide Push, ReadAll;
    var pushed, name := Push(s, k, collect), Label(l) + "_";
    ReadOne(s, '[', k, collect);
    ReadPlain(Scan(pushed.out + ['['], [], pushed.tally), name, k, collect);
    ReadConcat(s, ['['], name, k, collect);
    assert pushed.out + ['['] + name == pushed.out + (['['] + name);
  }

  lemma ReadNumber(s: Scan, n: nat, k: Kind, collect: bool)
    requires k != Email && n < LIMIT && s.token == []
    ensures ReadAll(s, Decimal(n) + [']'], k, collect) == Scan(s.out + (Decimal(n) + [']']), [], s.tally)
  {
    hide Push, ReadAll, Decimal;
    var d := Decimal(n);
    ReadToken(s, d, k, collect);
    assert [] + d == d;
    var read := Scan(s.out, d, s.tally);
    PushNumber(read, n, k, collect);
    ReadOne(read, ']', k, collect);
    ReadConcat(s, d, [']'], k, collect);
    assert s.out + d + [']'] == s.out + (d + [']']);
  }

  lemma PushNumber(s: Scan, n: nat, k: Kind, collect: bool)
    requires k != Email && n < LIMIT && s.token == Decimal(n)
    ensures Push(s, k, collect) == Scan(s.out + s.token, [], s.tally)
  {
    hide Decimal, Trim, LooksLike;
    NumberIsNoMatch(n, k);
  }

  // ----- tallies only grow, and stay consistent -----

  ghost predicate Grows(t: Tally, u: Tally) {
    && t.mappings <= u.mappings && (forall k :: Count(t, k) <= Count(u, k))
    && (Consistent(t) ==> Consistent(u))
  }

  lemma GrowsOn(t: Tally, u: Tally, v: Tally)
    requires Grows(t, u) && Grows(u, v)
    ensures Grows(t, v)
  {
    hide Consistent, Count;
  }

  lemma NotedIsConsistent(t: Tally, k: Kind, o: string)
    requires Consistent(t) && LooksLike(k, o) && forall c :: c in o ==> TokenChar(c, k)
    ensures var u := Counted(t, k); Consistent(Noted(u, Mapping(Placeholder(k, Count(u, k)), o)))
  {
    hide LooksLike, TokenChar, Placeholder, Counted, Count, Issued, IssuedBy, Listed;
    var n := Count(t, k) + 1;
    var m := Mapping(Placeholder(k, n), o);
    var u := Noted(Counted(t, k), m);
    CountedOnce(t, k, m);
    assert IssuedBy(m, u) by { NewIsIssued(m, k, n, u); }
    forall i | 0 <= i < |t.mappings| ensures IssuedBy(u.mappings[i], u) && u.mappings[i].placeholder != m.placeholder {
      assert u.mappings[i] == t.mappings[i];
      StillIssued(t, i, u, k);
    }
    forall l, j: nat | 1 <= j <= Count(u, l) ensures Listed(u, Placeholder(l, j)) {
      StillListed(t, u, m, k, l, j);
    }
  }

  lemma CountedOnce(t: Tally, k: Kind, m: Mapping)
    ensures var u := Noted(Counted(t, k), m);
            && u.mappings == t.mappings + [m] && Count(Counted(t, k), k) == Count(u, k) == Count(t, k) + 1
            && forall l :: l != k ==> Count(u, l) == Count(t, l)
  {
  }

  lemma NewIsIssued(m: Mapping, k: Kind, n: nat, u: Tally)
    requires m.placeholder == Placeholder(k, n) && 1 <= n <= Count(u, k)
    requires LooksLike(k, m.original) && forall c :: c in m.original ==> TokenChar(c, k)
    ensures IssuedBy(m, u)
  {
    hide LooksLike, TokenChar, Placeholder, Count;
    assert Issued(m, k, n);
  }

  lemma StillIssued(t: Tally, i: nat, u: Tally, k: Kind)
    requires i < |t.mappings| && IssuedBy(t.mappings[i], t) && forall l :: Count(t, l) <= Count(u, l)
    ensures IssuedBy(t.mappings[i], u) && t.mappings[i].placeholder != Placeholder(k, Count(t, k) + 1)
  {
    hide LooksLike, TokenChar, Placeholder, Count;
    var l, j: nat :| 1 <= j <= Count(t, l) && Issued(t.mappings[i], l, j);
    if Placeholder(l, j) == Placeholder(k, Count(t, k) + 1) { PlaceholderInjective(l, j, k, Count(t, k) + 1); }
  }

  lemma StillListed(t: Tally, u: Tally, m: Mapping, k: Kind, l: Kind, j: nat)
    requires u.mappings == t.mappings + [m] && m.placeholder == Placeholder(k, Count(t, k) + 1)
    requires 1 <= j <= (if l == k then Count(t, k) + 1 else Count(t, l))
    requires 1 <= j <= Count(t, l) ==> Listed(t, Placeholder(l, j))
    ensures Listed(u, Placeholder(l, j))
  {
    hide Placeholder, Count;
    if j == Count(t, k) + 1 && l == k {
      assert u.mappings[|t.mappings|] == m;
    } else {
      var i :| 0 <= i < |t.mappings| && t.mappings[i].placeholder == Placeholder(l, j);
      assert u.mappings[i] == t.mappings[i];
    }
  }

  ghost predicate Tokenised(s: Scan, k: Kind) { forall c :: c in s.token ==> TokenChar(c, k) }

  lemma PushGrows(s: Scan, k: Kind)
    requires Tokenised(s, k)
    ensures Grows(s.tally, Push(s, k, true).tally)
  {
    hide Trim, LooksLike, TokenChar, Placeholder, Consistent, ReplaceFirst;
    var o := Trim(s.token);
    if s.token != [] && LooksLike(k, o) {
      MatchIsNotEmpty(k, o);
      var a, b := TrimSplits(s.token, []);
      assert forall c :: c in o ==> c in s.token;
      if Consistent(s.tally) { NotedIsConsistent(s.tally, k, o); }
    }
  }

  lemma {:induction false} ReadGrows(s: Scan, text: string, k: Kind)
    requires Tokenised(s, k)
    ensures Grows(s.tally, ReadAll(s, text, k, true).tally) && Tokenised(ReadAll(s, text, k, true), k)
  {
    hide Grows, Push, TokenChar;
    if text == [] {
      GrowsNot(s.tally);
    } else {
      var read := ReadAll(s, text[..|text| - 1], k, true);
      ReadGrows(s, text[..|text| - 1], k);
      PushGrows(read, k);
      GrowsOn(s.tally, read.tally, Push(read, k, true).tally);
    }
  }

  lemma GrowsNot(t: Tally)
    ensures Grows(t, t)
  {
    hide Consistent;
  }

  lemma TokensGrow(text: string, t: Tally, k: Kind)
    ensures Grows(t, RedactTokens(text, t, k, true).1)
  {
    hide Grows, Push, ReadAll;
    var s := Scan([], [], t);
    ReadGrows(s, text, k);
    var read := ReadAll(s, text, k, true);
    PushGrows(read, k);
    GrowsOn(t, read.tally, Push(read, k, true).tally);
  }

  lemma TextGrows(text: string, t: Tally)
    ensures Grows(t, RedactText(text, t, true).1)
  {
    hide Grows, RedactTokens;
    var email := RedactTokens(text, t, Email, true);
    var ssn := RedactTokens(email.0, email.1, Ssn, true);
    var phone := RedactTokens(ssn.0, ssn.1, Phone, true);
    TokensGrow(text, t, Email);
    TokensGrow(email.0, email.1, Ssn);
    TokensGrow(ssn.0, ssn.1, Phone);
    GrowsOn(t, email.1, ssn.1);
    GrowsOn(t, ssn.1, phone.1);
  }

  lemma {:induction false} ValueGrows(v: Value, t: Tally)
    ensures Grows(t, RedactValue(v, t, true).1)
    decreases v
  {
    hide Grows, RedactText, RedactValues;
    GrowsNot(t);
    if v.Text? { TextGrows(v.text, t); }
    if v.Array? { ValuesGrow(v.items, t); }
    if v.Object? { ValuesGrow(v.values, t); }
  }

  lemma {:induction false} ValuesGrow(vs: seq<Value>, t: Tally)
    ensures Grows(t, RedactValues(vs, t, true).1)
    decreases vs
  {
    hide Grows, RedactValue;
    if vs == [] {
      GrowsNot(t);
    } else {
      var init := RedactValues(vs[..|vs| - 1], t, true);
      ValuesGrow(vs[..|vs| - 1], t);
      ValueGrows(vs[|vs| - 1], init.1);
      GrowsOn(t, init.1, RedactValue(vs[|vs| - 1], init.1, true).1);
    }
  }

  // ----- a pass on pieces -----

  /** The final tally of a whole document. */
  ghost predicate Final(t: Tally) { Consistent(t) && Small(t) }

  /** The pieces read as `shown` now and as `original` once everything is restored. */
  ghost predicate Means(ps: seq<Piece>, t: Tally, shown: string, original: string) {
    Holes(ps, t.mappings) && Render(ps, t.mappings, 0) == shown && Render(ps, t.mappings, |t.mappings|) == original
  }

  lemma MeansConcat(a: seq<Piece>, b: seq<Piece>, t: Tally, s1: string, o1: string, s2: string, o2: string)
    requires Means(a, t, s1, o1) && Means(b, t, s2, o2)
    ensures Means(a + b, t, s1 + s2, o1 + o2)
  {
    hide Render;
    RenderConcat(a, b, t.mappings, 0);
    RenderConcat(a, b, t.mappings, |t.mappings|);
  }

  lemma MeansLiterals(s: string, t: Tally)
    ensures Means(Literals(s), t, s, s)
  {
    hide Render;
    RenderLiterals(s, t.mappings, 0);
    RenderLiterals(s, t.mappings, |t.mappings|);
  }

  lemma MeansHole(k: nat, t: Tally)
    requires k < |t.mappings|
    ensures Means([Hole(k)], t, t.mappings[k].placeholder, t.mappings[k].original)
  {
    var ps, ms := [Hole(k)], t.mappings;
    assert ps[1..] == [];
    assert Render([], ms, 0) == [] && Render([], ms, |ms|) == [];
    assert ms[k].placeholder + [] == ms[k].placeholder && ms[k].original + [] == ms[k].original;
  }

  lemma PushPieces(ps: seq<Piece>, s: Scan, original: string, k: Kind, t: Tally) returns (qs: seq<Piece>)
    requires Means(ps, t, s.out, original) && Push(s, k, true).tally.mappings <= t.mappings
    ensures Means(qs, t, Push(s, k, true).out, original + s.token)
  {
    hide Means, Trim, LooksLike, Placeholder, ReplaceFirst;
    var o := Trim(s.token);
    if s.token == [] {
      qs := ps;
      assert original + s.token == original;
    } else if !LooksLike(k, o) {
      MeansLiterals(s.token, t);
      MeansConcat(ps, Literals(s.token), t, s.out, original, s.token, s.token);
      qs := ps + Literals(s.token);
    } else {
      var p := Placeholder(k, Count(Counted(s.tally, k), k));
      MatchIsNotEmpty(k, o);
      var a, b := TrimSplits(s.token, p);
      var i := |s.tally.mappings|;
      assert t.mappings[i] == Push(s, k, true).tally.mappings[i] == Mapping(p, o);
      MeansHole(i, t);
      MeansLiterals(a, t);
      MeansLiterals(b, t);
      MeansConcat([Hole(i)], Literals(b), t, p, o, b, b);
      MeansConcat(Literals(a), [Hole(i)] + Literals(b), t, a, a, p + b, o + b);
      MeansConcat(ps, Literals(a) + ([Hole(i)] + Literals(b)), t, s.out, original, a + (p + b), a + (o + b));
      qs := ps + (Literals(a) + ([Hole(i)] + Literals(b)));
    }
  }

  lemma ReadChar(ps: seq<Piece>, original: string, c: char, s: Scan, k: Kind, t: Tally)
    returns (qs: seq<Piece>, more: string)
    requires Means(ps, t, s.out, original) && Read(s, c, k, true).tally.mappings <= t.mappings
    ensures Means(qs, t, Read(s, c, k, true).out, more) && more + Read(s, c, k, true).token == original + s.token + [c]
  {
    hide Means, Push, TokenChar;
    if TokenChar(c, k) {
      qs, more := ps, original;
    } else {
      var pushed := Push(s, k, true);
      qs := PushPieces(ps, s, original, k, t);
      MeansLiterals([c], t);
      MeansConcat(qs, Literals([c]), t, pushed.out, original + s.token, [c], [c]);
      qs, more := qs + Literals([c]), original + s.token + [c];
    }
  }

  lemma ReadHole(ps: seq<Piece>, original: string, j: nat, s: Scan, k: Kind, t: Tally)
    returns (qs: seq<Piece>, more: string)
    requires Final(t) && k != Email && j < |t.mappings| && Means(ps, t, s.out, original)
    requires ReadAll(s, t.mappings[j].placeholder, k, true).tally.mappings <= t.mappings
    ensures var r := ReadAll(s, t.mappings[j].placeholder, k, true);
            Means(qs, t, r.out, more) && more + r.token == original + s.token + t.mappings[j].original
  {
    hide Means, Push, TokenChar, ReadAll, Placeholder, Consistent, Issued;
    var m := t.mappings[j];
    var l, n := Issuer(t, j);
    ReadPlaceholder(s, l, n, k, true);
    qs := PushPieces(ps, s, original, k, t);
    MeansHole(j, t);
    MeansConcat(qs, [Hole(j)], t, Push(s, k, true).out, original + s.token, m.placeholder, m.original);
    qs, more := qs + [Hole(j)], original + s.token + m.original;
  }

  lemma ReadPiece(ps: seq<Piece>, original: string, p: Piece, s: Scan, k: Kind, t: Tally)
    returns (qs: seq<Piece>, more: string)
    requires Final(t) && Holes([p], t.mappings) && (k == Email ==> p.Lit?) && Means(ps, t, s.out, original)
    requires ReadAll(s, Render([p], t.mappings, 0), k, true).tally.mappings <= t.mappings
    ensures var r := ReadAll(s, Render([p], t.mappings, 0), k, true);
            Means(qs, t, r.out, more) && more + r.token == original + s.token + Render([p], t.mappings, |t.mappings|)
  {
    hide Means, Read, ReadAll, Final, Render;
    RenderOne(p, t.mappings, 0);
    RenderOne(p, t.mappings, |t.mappings|);
    if p.Lit? {
      ReadOne(s, p.c, k, true);
      qs, more := ReadChar(ps, original, p.c, s, k, t);
    } else {
      qs, more := ReadHole(ps, original, p.k, s, k, t);
    }
  }

  lemma RenderOne(p: Piece, ms: seq<Mapping>, n: nat)
    requires Holes([p], ms)
    ensures (p.Hole? ==> p.k < |ms|) && Render([p], ms, n) == Shown(p, ms, n)
  {
    var ps := [p];
    assert ps[0] == p && ps[1..] == [];
    assert Render([], ms, n) == [];
  }

  /** A pass over the text leaves pieces that read as the scanned output and still stand for the original. */
  lemma {:induction false} ReadPieces(ps: seq<Piece>, u: Tally, k: Kind, t: Tally)
    returns (qs: seq<Piece>, original: string)
    requires Final(t) && Holes(ps, t.mappings) && (k == Email ==> forall i :: 0 <= i < |ps| ==> ps[i].Lit?)
    requires ReadAll(Scan([], [], u), Render(ps, t.mappings, 0), k, true).tally.mappings <= t.mappings
    ensures var s := ReadAll(Scan([], [], u), Render(ps, t.mappings, 0), k, true);
            Means(qs, t, s.out, original) && Render(ps, t.mappings, |t.mappings|) == original + s.token
  {
    hide Final, Holes, Means, Render, ReadAll, Grows, Tokenised, Consistent;
    var ms, start := t.mappings, Scan([], [], u);
    if ps == [] {
      qs, original := [], [];
      NothingRead(t, start, k);
    } else {
      var init, last := ps[..|ps| - 1], ps[|ps| - 1];
      assert ps == init + [last];
      assert Holes(init, ms) && Holes([last], ms) by { SplitHoles(init, last, ms); }
      RenderConcat(init, [last], ms, 0);
      RenderConcat(init, [last], ms, |ms|);
      var before := ReadAll(start, Render(init, ms, 0), k, true);
      var shown := Render([last], ms, 0);
      ReadConcat(start, Render(init, ms, 0), shown, k, true);
      ReadKeepsMappings(start, Render(init, ms, 0), shown, k);
      qs, original := ReadPieces(init, u, k, t);
      qs, original := ReadPiece(qs, original, last, before, k, t);
    }
  }

  lemma SplitHoles(init: seq<Piece>, last: Piece, ms: seq<Mapping>)
    requires Holes(init + [last], ms)
    ensures Holes(init, ms) && Holes([last], ms)
  {
    var ps := init + [last];
    assert forall i :: 0 <= i < |init| ==> ps[i] == init[i];
    assert ps[|init|] == last;
  }

  lemma NothingRead(t: Tally, start: Scan, k: Kind)
    ensures Means([], t, [], []) && ReadAll(start, [], k, true) == start && Render([], t.mappings, |t.mappings|) == []
    ensures Render([], t.mappings, 0) == []
  {
  }

  lemma ReadKeepsMappings(start: Scan, a: string, b: string, k: Kind)
    requires start.token == []
    ensures ReadAll(start, a, k, true).tally.mappings <= ReadAll(ReadAll(start, a, k, true), b, k, true).tally.mappings
  {
    hide ReadAll, Consistent;
    ReadGrows(start, a, k);
    ReadGrows(ReadAll(start, a, k, true), b, k);
  }

  lemma TokensPieces(ps: seq<Piece>, u: Tally, k: Kind, t: Tally, shown: string, original: string)
    returns (qs: seq<Piece>)
    requires Final(t) && Means(ps, t, shown, original) && (k == Email ==> forall i :: 0 <= i < |ps| ==> ps[i].Lit?)
    requires RedactTokens(shown, u, k, true).1.mappings <= t.mappings
    ensures Means(qs, t, RedactTokens(shown, u, k, true).0, original)
  {
    hide Final, ReadAll, Push, Render, Consistent;
    var start := Scan([], [], u);
    var read := ReadAll(start, shown, k, true);
    ReadGrows(start, shown, k);
    PushGrows(read, k);
    var before;
    qs, before := ReadPieces(ps, u, k, t);
    qs := PushPieces(qs, read, before, k, t);
  }

  /** Three passes over a string leave pieces that read as its redaction and still stand for the string. */
  lemma TextPieces(text: string, u: Tally, t: Tally) returns (ps: seq<Piece>)
    requires Final(t) && RedactText(text, u, true).1.mappings <= t.mappings
    ensures Means(ps, t, RedactText(text, u, true).0, text)
  {
    hide Final, Means, RedactTokens, Consistent, Literals;
    var email := RedactTokens(text, u, Email, true);
    var ssn := RedactTokens(email.0, email.1, Ssn, true);
    TokensGrow(email.0, email.1, Ssn);
    TokensGrow(ssn.0, ssn.1, Phone);
    MeansLiterals(text, t);
    ps := TokensPieces(Literals(text), u, Email, t, text, text);
    ps := TokensPieces(ps, email.1, Ssn, t, email.0, text);
    ps := TokensPieces(ps, ssn.1, Phone, t, ssn.0, text);
  }

  // ----- the round trip -----

  /** Some string of the value spells out a placeholder that the tally has issued. */
  ghost predicate SpellsIn(text: string, t: Tally) {
    exists k, n: nat :: 1 <= n <= Count(t, k) && Inside(Placeholder(k, n), text)
  }

  ghost predicate Spells(v: Value, t: Tally)
    decreases v
  {
    match v
    case Text(text) => SpellsIn(text, t)
    case Array(items) => exists i :: 0 <= i < |items| && Spells(items[i], t)
    case Object(_, values) => exists i :: 0 <= i < |values| && Spells(values[i], t)
    case Null => false
    case Bool(_) => false
    case Number(_) => false
  }

  lemma SpelledIsListed(text: string, t: Tally)
    requires Final(t)
    ensures SpellsIn(text, t) <==> exists i :: 0 <= i < |t.mappings| && Inside(t.mappings[i].placeholder, text)
  {
    hide Inside, Placeholder, LooksLike, TokenChar;
    if SpellsIn(text, t) {
      var k, n: nat :| 1 <= n <= Count(t, k) && Inside(Placeholder(k, n), text);
      assert Listed(t, Placeholder(k, n));
    }
    if i :| 0 <= i < |t.mappings| && Inside(t.mappings[i].placeholder, text) {
      assert IssuedBy(t.mappings[i], t);
      var k, n: nat :| 1 <= n <= Count(t, k) && Issued(t.mappings[i], k, n);
      assert Inside(Placeholder(k, n), text);
    }
  }

  lemma TextRoundTrip(text: string, u: Tally, t: Tally)
    requires Final(t) && RedactText(text, u, true).1.mappings <= t.mappings
    ensures Restored(RedactText(text, u, true).0, t.mappings, |t.mappings|) == text <==> !SpellsIn(text, t)
  {
    hide RedactText, Restored, Render, Consistent, Inside, Restorable, SpellsIn;
    var ps := TextPieces(text, u, t);
    ConsistentIsRestorable(t);
    RestoresUnlessSpelled(ps, t.mappings);
    SpelledIsListed(text, t);
  }

  lemma {:induction false} ValueRoundTrip(v: Value, u: Tally, t: Tally)
    requires Final(t) && RedactValue(v, u, true).1.mappings <= t.mappings
    ensures RestoreValue(RedactValue(v, u, true).0, t.mappings) == v <==> !Spells(v, t)
    decreases v
  {
    hide Final, RedactText, RedactValues, Restored, RestoreValues, SpellsIn;
    if v.Text? { TextRoundTrip(v.text, u, t); }
    if v.Array? { ValuesRoundTrip(v.items, u, t); }
    if v.Object? { ValuesRoundTrip(v.values, u, t); }
  }

  ghost predicate SpellsAny(vs: seq<Value>, t: Tally) { exists i :: 0 <= i < |vs| && Spells(vs[i], t) }

  lemma SpellsSnoc(vs: seq<Value>, t: Tally)
    requires vs != []
    ensures SpellsAny(vs, t) <==> SpellsAny(vs[..|vs| - 1], t) || Spells(vs[|vs| - 1], t)
  {
    hide Spells;
    var front := vs[..|vs| - 1];
    assert forall i :: 0 <= i < |front| ==> front[i] == vs[i];
  }

  lemma {:induction false} ValuesRoundTrip(vs: seq<Value>, u: Tally, t: Tally)
    requires Final(t) && RedactValues(vs, u, true).1.mappings <= t.mappings
    ensures RestoreValues(RedactValues(vs, u, true).0, t.mappings) == vs <==> !SpellsAny(vs, t)
    decreases vs
  {
    hide Final, RedactValue, RestoreValue, Spells, Consistent;
    if vs != [] {
      hide SpellsAny;
      var front, last := vs[..|vs| - 1], vs[|vs| - 1];
      var init := RedactValues(front, u, true);
      var final := RedactValue(last, init.1, true);
      ValueGrows(last, init.1);
      ValuesRoundTrip(front, u, t);
      ValueRoundTrip(last, init.1, t);
      RestoreSnoc(init.0, final.0, t.mappings);
      assert vs == front + [last];
      SameSnoc(RestoreValues(init.0, t.mappings), front, RestoreValue(final.0, t.mappings), last);
      SpellsSnoc(vs, t);
    }
  }

  lemma RestoreSnoc(vs: seq<Value>, v: Value, ms: seq<Mapping>)
    ensures RestoreValues(vs + [v], ms) == RestoreValues(vs, ms) + [RestoreValue(v, ms)]
  {
    hide RestoreValue;
    var all := vs + [v];
    assert all[..|all| - 1] == vs && all[|all| - 1] == v;
  }

  lemma SameSnoc(a: seq<Value>, b: seq<Value>, x: Value, y: Value)
    ensures a + [x] == b + [y] <==> a == b && x == y
  {
    if a + [x] == b + [y] {
      assert |a + [x]| == |b + [y]| && |a| == |b|;
      assert (a + [x])[..|a|] == a && (b + [y])[..|b|] == b;
      assert (a + [x])[|a|] == x && (b + [y])[|b|] == y;
    }
  }

  lemma NothingIsConsistent()
    ensures Consistent(NOTHING)
  {
  }

  /**
   Redacting a value and restoring it with the collected mappings gives back the value exactly when no string of it
   spells out a placeholder `[LABEL_n]` with n at most the number of matches of that kind.
   */
  lemma RestoreUndoesRedact(v: Value)
    requires Small(RedactValue(v, NOTHING, true).1)
    ensures var r := RedactValue(v, NOTHING, true); RestoreValue(r.0, r.1.mappings) == v <==> !Spells(v, r.1)
  {
    hide RedactValue, RestoreValue, Spells, Consistent;
    NothingIsConsistent();
    ValueGrows(v, NOTHING);
    ValueRoundTrip(v, NOTHING, RedactValue(v, NOTHING, true).1);
  }

  ghost predicate NoBracket(v: Value)
    decreases v
  {
    match v
    case Text(text) => '[' !in text
    case Array(items) => forall i :: 0 <= i < |items| ==> NoBracket(items[i])
    case Object(_, values) => forall i :: 0 <= i < |values| ==> NoBracket(values[i])
    case Null => true
    case Bool(_) => true
    case Number(_) => true
  }

  lemma {:induction false} NoBracketSpellsNothing(v: Value, t: Tally)
    requires NoBracket(v)
    ensures !Spells(v, t)
    decreases v
  {
    hide Placeholder, Count;
    if v.Text? {
      forall k, n: nat ensures !Inside(Placeholder(k, n), v.text) {
        PlaceholderIsMarker(k, n);
        NoBracketNoMarker(Placeholder(k, n), v.text);
      }
    } else if v.Array? {
      forall i | 0 <= i < |v.items| ensures !Spells(v.items[i], t) { NoBracketSpellsNothing(v.items[i], t); }
    } else if v.Object? {
      forall i | 0 <= i < |v.values| ensures !Spells(v.values[i], t) { NoBracketSpellsNothing(v.values[i], t); }
    }
  }

  lemma NoBracketNoMarker(p: string, text: string)
    requires Marker(p) && '[' !in text
    ensures !Inside(p, text)
  {
    forall i: nat ensures !At(p, text, i) {
      if i < |text| { assert text[i..][0] == text[i] && text[i] in text; }
    }
  }

  /** In particular, values without '[' always come back. */
  lemma BracketlessComesBack(v: Value)
    requires NoBracket(v) && Small(RedactValue(v, NOTHING, true).1)
    ensures var r := RedactValue(v, NOTHING, true); RestoreValue(r.0, r.1.mappings) == v
  {
    hide RedactValue, RestoreValue, Spells, NoBracket;
    RestoreUndoesRedact(v);
    NoBracketSpellsNothing(v, RedactValue(v, NOTHING, true).1);
  }

  // ----- a value that does not come back -----

  const ADDRESS := "a@b.c"

  lemma AddressMatches()
    ensures Trim(ADDRESS) == ADDRESS && LooksLike(Email, ADDRESS)
  {
    hide Trim, LooksLike;
    AddressIsTrimmed();
    AddressLooksRight();
  }

  lemma AddressIsTrimmed()
    ensures Trim(ADDRESS) == ADDRESS
  {
  }

  lemma AddressLooksRight()
    ensures LooksLike(Email, ADDRESS)
  {
    hide Trim;
    assert IndexOf(ADDRESS, '@') == 1;
    assert ADDRESS[2..] == "b.c" && "b.c"[1] == '.';
  }

  lemma AddressIsRedacted(t: Tally)
    ensures var p := Placeholder(Email, t.emails + 1);
            Push(Scan([], ADDRESS, t), Email, true) == Scan(p, [], Noted(Counted(t, Email), Mapping(p, ADDRESS)))
  {
    hide Trim, LooksLike, Placeholder;
    AddressMatches();
    var p := Placeholder(Email, t.emails + 1);
    assert ADDRESS[|ADDRESS|..] == [] && p + [] == p;
  }

  lemma NoAtNoMatch(s: string)
    requires '@' !in s
    ensures !LooksLike(Email, s)
  {
  }

  lemma NameIsNoMatch()
    ensures !LooksLike(Email, Trim("EMAIL_1"))
  {
    hide Trim, LooksLike, ReplaceFirst;
    var name := "EMAIL_1";
    var o := Trim(name);
    assert '@' !in name;
    if o != [] {
      var a, b := TrimSplits(name, []);
      assert forall c :: c in o ==> c in name;
    }
    NoAtNoMatch(o);
  }

  /** The address is replaced as soon as the blank ends it. */
  lemma FirstHalf(t: Tally)
    requires t.emails == 0
    ensures var p := Placeholder(Email, 1);
            ReadAll(Scan([], [], t), ADDRESS + [' '], Email, true) ==
            Scan(p + [' '], [], Noted(Counted(t, Email), Mapping(p, ADDRESS)))
  {
    hide Push, ReadAll, Placeholder, Counted, Noted;
    ReadToken(Scan([], [], t), ADDRESS, Email, true);
    assert [] + ADDRESS == ADDRESS;
    AddressIsRedacted(t);
    ReadOne(Scan([], ADDRESS, t), ' ', Email, true);
    ReadConcat(Scan([], [], t), ADDRESS, [' '], Email, true);
  }

  lemma NameIsToken()
    ensures (forall c :: c in "EMAIL_1" ==> TokenChar(c, Email)) && !TokenChar('[', Email) && !TokenChar(']', Email)
  {
  }

  /** The spelled-out placeholder is read as it is. */
  lemma SecondHalf(s: Scan)
    requires s.token == []
    ensures ReadAll(s, Placeholder(Email, 1), Email, true) == Scan(s.out + Placeholder(Email, 1), [], s.tally)
  {
    hide Push, ReadAll, Placeholder, TokenChar;
    var name := "EMAIL_1";
    OneIsWritten();
    NameIsToken();
    ReadPlain(s, ['['], Email, true);
    var s1 := Scan(s.out + ['['], [], s.tally);
    ReadToken(s1, name, Email, true);
    assert [] + name == name;
    ReadConcat(s, ['['], name, Email, true);
    NameEnds(Scan(s1.out, name, s.tally));
    ReadConcat(s, ['['] + name, [']'], Email, true);
    assert s.out + ['['] + name + [']'] == s.out + (['['] + name + [']']);
  }

  lemma NameEnds(s: Scan)
    requires s.token == "EMAIL_1"
    ensures ReadAll(s, [']'], Email, true) == Scan(s.out + "EMAIL_1" + [']'], [], s.tally)
  {
    hide Push, ReadAll, TokenChar;
    NameIsToken();
    UnmatchedIsPushed(s);
    ReadOne(s, ']', Email, true);
  }

  lemma FirstPass(t: Tally)
    requires t.emails == 0
    ensures var p := Placeholder(Email, 1);
            RedactTokens(ADDRESS + [' '] + p, t, Email, true) ==
            (p + [' '] + p, Noted(Counted(t, Email), Mapping(p, ADDRESS)))
  {
    hide Push, ReadAll, Placeholder, Counted, Noted, ADDRESS;
    var p, start := Placeholder(Email, 1), Scan([], [], t);
    var s := Scan(p + [' '], [], Noted(Counted(t, Email), Mapping(p, ADDRESS)));
    FirstHalf(t);
    SecondHalf(s);
    ReadConcat(start, ADDRESS + [' '], p, Email, true);
    NothingPushed(Scan(s.out + p, [], s.tally), Email);
  }

  lemma OneIsWritten()
    ensures Placeholder(Email, 1) == ['['] + "EMAIL_1" + [']']
  {
    assert Decimal(1) == "1";
  }

  lemma UnmatchedIsPushed(s: Scan)
    requires s.token == "EMAIL_1"
    ensures Push(s, Email, true) == Scan(s.out + s.token, [], s.tally)
  {
    hide Trim, LooksLike;
    NameIsNoMatch();
  }

  lemma NothingPushed(s: Scan, k: Kind)
    requires s.token == []
    ensures Push(s, k, true) == s
  {
  }

  lemma LaterPass(t: Tally, k: Kind)
    requires k != Email
    ensures var p := Placeholder(Email, 1); RedactTokens(p + [' '] + p, t, k, true) == (p + [' '] + p, t)
  {
    hide Push, ReadAll, Placeholder;
    var p, start := Placeholder(Email, 1), Scan([], [], t);
    NothingPushed(start, k);
    ReadPlaceholder(start, Email, 1, k, true);
    assert [] + p == p;
    var s1 := Scan(p, [], t);
    ReadPlain(s1, [' '], k, true);
    var s2 := Scan(p + [' '], [], t);
    NothingPushed(s2, k);
    ReadPlaceholder(s2, Email, 1, k, true);
    ReadConcat(start, p, [' '], k, true);
    ReadConcat(start, p + [' '], p, k, true);
    NothingPushed(Scan(p + [' '] + p, [], t), k);
  }

  /** "a@b.c [EMAIL_1]" comes back changed: its own "[EMAIL_1]" is restored as well. */
  lemma SpelledPlaceholderIsLost()
    ensures var v := Text(ADDRESS + [' '] + Placeholder(Email, 1));
            var r := RedactValue(v, NOTHING, true);
            r.1.emails == 1 && RestoreValue(r.0, r.1.mappings) != v
  {
    hide RedactTokens, Placeholder, RestoreValue, Inside;
    var p := Placeholder(Email, 1);
    var text := ADDRESS + [' '] + p;
    var t := Noted(Counted(NOTHING, Email), Mapping(p, ADDRESS));
    FirstPass(NOTHING);
    LaterPass(t, Ssn);
    LaterPass(t, Phone);
    InsideFront(p, []);
    assert p + [] == p;
    InsideMore(p, ADDRESS + [' '], p);
    assert 1 <= 1 <= Count(t, Email) && Inside(Placeholder(Email, 1), text);
    assert SpellsIn(text, t);
    RestoreUndoesRedact(Text(text));
  }

  // ----- forms that are always redacted -----

  /** The number that a string of digits stands for. */
  function Reading(s: string): nat
    requires forall c :: c in s ==> Digit(c)
  {
    if s == [] then 0 else
      var last := s[|s| - 1];
      assert Digit(last);
      10 * Reading(s[..|s| - 1]) + (last - '0') as nat
  }

  /** Placeholders are numbered in decimal without leading zeros. */
  lemma {:induction false} DecimalReadsBack(n: nat)
    ensures Reading(Decimal(n)) == n && (n > 0 ==> Decimal(n)[0] != '0')
  {
    var d := Decimal(n);
    assert d[|d| - 1] == '0' + (n % 10) as char;
    DecimalPrefix(n);
    if n >= 10 {
      DecimalReadsBack(n / 10);
    } else {
      assert d[..0] == [] && Reading([]) == 0;
    }
  }

  lemma TrimsNothing(s: string)
    requires s != [] && !Trimmable(s[0]) && !Trimmable(s[|s| - 1])
    ensures Trim(s) == s
  {
  }

  lemma OneToken(text: string, t: Tally, k: Kind)
    requires forall c :: c in text ==> TokenChar(c, k)
    ensures var s := Push(Scan([], text, t), k, true); RedactTokens(text, t, k, true) == (s.out, s.tally)
  {
    hide TokenChar, Push, ReadAll;
    ReadToken(Scan([], [], t), text, k, true);
    assert [] + text == text;
  }

  /** A token that is no match stays. */
  lemma UnmatchedStays(text: string, t: Tally, k: Kind)
    requires text != [] && (forall c :: c in text ==> TokenChar(c, k)) && !LooksLike(k, Trim(text))
    ensures RedactTokens(text, t, k, true) == (text, t)
  {
    hide TokenChar, LooksLike, Trim;
    OneToken(text, t, k);
    assert [] + text == text;
  }

  /** A token that is a match as it stands is replaced whole. */
  lemma MatchIsReplaced(text: string, t: Tally, k: Kind)
    requires text != [] && (forall c :: c in text ==> TokenChar(c, k)) && Trim(text) == text && LooksLike(k, text)
    ensures var p := Placeholder(k, Count(t, k) + 1);
            RedactTokens(text, t, k, true) == (p, Noted(Counted(t, k), Mapping(p, text)))
  {
    hide TokenChar, LooksLike, Trim, Placeholder;
    OneToken(text, t, k);
    var p := Placeholder(k, Count(t, k) + 1);
    assert text[|text|..] == [] && p + [] == p && [] + p == p;
  }

  lemma PlaceholderStays(l: Kind, n: nat, t: Tally, k: Kind)
    requires k != Email && n < LIMIT
    ensures RedactTokens(Placeholder(l, n), t, k, true) == (Placeholder(l, n), t)
  {
    hide Push, ReadAll, Placeholder;
    var p, start := Placeholder(l, n), Scan([], [], t);
    NothingPushed(start, k);
    ReadPlaceholder(start, l, n, k, true);
    assert [] + p == p;
    NothingPushed(Scan(p, [], t), k);
  }

  ghost predicate AllDigits(s: string) { forall c :: c in s ==> Digit(c) }

  lemma {:induction false} SplitMore(s: string, w: string)
    requires '-' !in w
    ensures var parts := Split(s, '-');
            Split(s + w, '-') == parts[..|parts| - 1] + [parts[|parts| - 1] + w]
  {
    hide Split;
    var parts := Split(s, '-');
    var front, end := parts[..|parts| - 1], parts[|parts| - 1];
    assert parts == front + [end];
    if w == [] {
      assert s + w == s && end + w == end;
    } else {
      var init, last := w[..|w| - 1], w[|w| - 1];
      assert last in w && w == init + [last] && s + w == s + init + [last];
      SplitMore(s, init);
      SplitOther(s + init, last);
      var q := Split(s + init, '-');
      assert q[..|q| - 1] == front && q[|q| - 1] == end + init;
      assert end + init + [last] == end + w;
    }
  }

  lemma SplitOther(s: string, c: char)
    requires c != '-'
    ensures var parts := Split(s, '-'); Split(s + [c], '-') == parts[..|parts| - 1] + [parts[|parts| - 1] + [c]]
  {
    assert (s + [c])[..|s|] == s;
  }

  lemma SplitDash(s: string)
    ensures Split(s + ['-'], '-') == Split(s, '-') + [[]]
  {
    assert (s + ['-'])[..|s|] == s;
  }

  lemma SplitThree(a: string, b: string, c: string)
    requires '-' !in a && '-' !in b && '-' !in c
    ensures Split(a + ['-'] + b + ['-'] + c, '-') == [a, b, c]
  {
    hide Split;
    SplitNothing();
    SplitMore([], a);
    assert [] + a == a && Split(a, '-') == [a];
    SplitDash(a);
    assert Split(a + ['-'], '-') == [a, []];
    SplitMore(a + ['-'], b);
    assert [] + b == b && Split(a + ['-'] + b, '-') == [a, b];
    SplitDash(a + ['-'] + b);
    assert Split(a + ['-'] + b + ['-'], '-') == [a, b, []];
    SplitMore(a + ['-'] + b + ['-'], c);
    assert [] + c == c;
  }

  lemma SplitNothing()
    ensures Split([], '-') == [[]]
  {
  }

  lemma SsnLooksRight(a: string, b: string, c: string)
    requires AllDigits(a) && AllDigits(b) && AllDigits(c) && |a| == 3 && |b| == 2 && |c| == 4
    ensures var text := a + ['-'] + b + ['-'] + c;
      && LooksLikeSsn(text) && Trim(text) == text && forall x :: x in text ==> Digit(x) || x == '-'
  {
    hide Trim, Split;
    var text := a + ['-'] + b + ['-'] + c;
    assert text[0] == a[0] && text[|text| - 1] == c[3] && a[0] in a && c[3] in c;
    TrimsNothing(text);
    SplitThree(a, b, c);
  }

  /** Three, two and four digits between dashes become a numbered [SSN_n]. */
  lemma SsnsAreRedacted(a: string, b: string, c: string, t: Tally)
    requires AllDigits(a) && AllDigits(b) && AllDigits(c) && |a| == 3 && |b| == 2 && |c| == 4 && t.ssns + 1 < LIMIT
    ensures var text := a + ['-'] + b + ['-'] + c;
            RedactText(text, t, true).0 == "[SSN_" + Decimal(t.ssns + 1) + "]"
  {
    hide RedactTokens, Decimal, Trim, LooksLikeSsn, LooksLikeEmail, AllDigits;
    var text := a + ['-'] + b + ['-'] + c;
    SsnLooksRight(a, b, c);
    NoAtNoMatch(text);
    UnmatchedStays(text, t, Email);
    MatchIsReplaced(text, t, Ssn);
    var p := Placeholder(Ssn, t.ssns + 1);
    PlaceholderStays(Ssn, t.ssns + 1, Noted(Counted(t, Ssn), Mapping(p, text)), Phone);
    assert p == "[SSN_" + Decimal(t.ssns + 1) + "]";
  }

  lemma {:induction false} DigitsOfDigits(s: string)
    requires AllDigits(s)
    ensures Digits(s) == |s|
  {
    if s != [] {
      assert s[0] in s;
      DigitsOfDigits(s[1..]);
    }
  }

  /** Ten to fifteen digits become a numbered [PHONE_n]. */
  lemma PhonesAreRedacted(text: string, t: Tally)
    requires AllDigits(text) && 10 <= |text| <= 15
    ensures RedactText(text, t, true).0 == "[PHONE_" + Decimal(t.phones + 1) + "]"
  {
    hide RedactTokens, Decimal, Trim, Digits;
    assert text[0] in text && text[|text| - 1] in text;
    TrimsNothing(text);
    NoAtNoMatch(text);
    UnmatchedStays(text, t, Email);
    UnmatchedStays(text, t, Ssn);
    DigitsOfDigits(text);
    MatchIsReplaced(text, t, Phone);
    assert Placeholder(Phone, t.phones + 1) == "[PHONE_" + Decimal(t.phones + 1) + "]";
  }

  lemma {:induction false} FirstAt(local: string, domain: string)
    requires '@' !in local
    ensures IndexOf(local + ['@'] + domain, '@') == |local|
  {
    var s := local + ['@'] + domain;
    if local != [] {
      assert s[0] == local[0] && local[0] in local;
      assert s[1..] == local[1..] + ['@'] + domain;
      FirstAt(local[1..], domain);
    }
  }

  lemma EmailLooksRight(local: string, domain: string)
    requires local != [] && '@' !in local && local[0] != '.' && (forall c :: c in local + domain ==> EmailChar(c))
    requires '.' in domain && domain[0] != '.' && domain[|domain| - 1] != '.'
    ensures var text := local + ['@'] + domain;
      LooksLikeEmail(text) && Trim(text) == text && forall c :: c in text ==> EmailChar(c)
  {
    hide Trim, IndexOf;
    var text := local + ['@'] + domain;
    forall c | c in text ensures EmailChar(c) { assert c in local + domain || c == '@'; }
    assert text[0] == local[0] && text[|text| - 1] == domain[|domain| - 1];
    assert local[0] in local + domain && domain[|domain| - 1] in local + domain;
    TrimsNothing(text);
    FirstAt(local, domain);
    assert text[|local| + 1..] == domain;
  }

  /** A name, '@' and a domain with a dot inside it become a numbered [EMAIL_n]. */
  lemma EmailsAreRedacted(local: string, domain: string, t: Tally)
    requires local != [] && '@' !in local && local[0] != '.' && (forall c :: c in local + domain ==> EmailChar(c))
    requires '.' in domain && domain[0] != '.' && domain[|domain| - 1] != '.' && t.emails + 1 < LIMIT
    ensures RedactText(local + ['@'] + domain, t, true).0 == "[EMAIL_" + Decimal(t.emails + 1) + "]"
  {
    hide RedactTokens, Decimal, Trim, LooksLikeEmail, EmailChar;
    var text := local + ['@'] + domain;
    EmailLooksRight(local, domain);
    MatchIsReplaced(text, t, Email);
    var p := Placeholder(Email, t.emails + 1);
    var u := Noted(Counted(t, Email), Mapping(p, text));
    PlaceholderStays(Email, t.emails + 1, u, Ssn);
    PlaceholderStays(Email, t.emails + 1, u, Phone);
    assert p == "[EMAIL_" + Decimal(t.emails + 1) + "]";
  }

  // ----- without collecting mappings -----

  /** The same counts, and no mappings more than before when none are collected. */
  ghost predicate Quiet(loud: Tally, quiet: Tally, before: seq<Mapping>) {
    loud.emails == quiet.emails && loud.ssns == quiet.ssns && loud.phones == quiet.phones && quiet.mappings == before
  }

  ghost predicate QuietScan(loud: Scan, quiet: Scan, before: seq<Mapping>) {
    loud.out == quiet.out && loud.token == quiet.token && Quiet(loud.tally, quiet.tally, before)
  }

  lemma PushQuietly(s: Scan, u: Scan, k: Kind, before: seq<Mapping>)
    requires QuietScan(s, u, before)
    ensures QuietScan(Push(s, k, true), Push(u, k, false), before)
  {
    hide Trim, LooksLike, Placeholder, ReplaceFirst;
  }

  lemma {:induction false} ReadQuietly(s: Scan, u: Scan, text: string, k: Kind, before: seq<Mapping>)
    requires QuietScan(s, u, before)
    ensures QuietScan(ReadAll(s, text, k, true), ReadAll(u, text, k, false), before)
  {
    hide Push, TokenChar;
    if text != [] {
      var init := text[..|text| - 1];
      ReadQuietly(s, u, init, k, before);
      PushQuietly(ReadAll(s, init, k, true), ReadAll(u, init, k, false), k, before);
    }
  }

  lemma TokensQuietly(text: string, t: Tally, u: Tally, k: Kind, before: seq<Mapping>)
    requires Quiet(t, u, before)
    ensures var loud, quiet := RedactTokens(text, t, k, true), RedactTokens(text, u, k, false);
            loud.0 == quiet.0 && Quiet(loud.1, quiet.1, before)
  {
    hide Push, ReadAll;
    var s, w := Scan([], [], t), Scan([], [], u);
    ReadQuietly(s, w, text, k, before);
    PushQuietly(ReadAll(s, text, k, true), ReadAll(w, text, k, false), k, before);
  }

  lemma TextQuietly(text: string, t: Tally, u: Tally, before: seq<Mapping>)
    requires Quiet(t, u, before)
    ensures var loud, quiet := RedactText(text, t, true), RedactText(text, u, false);
            loud.0 == quiet.0 && Quiet(loud.1, quiet.1, before)
  {
    hide RedactTokens, Quiet;
    var a, b := RedactTokens(text, t, Email, true), RedactTokens(text, u, Email, false);
    TokensQuietly(text, t, u, Email, before);
    var c, d := RedactTokens(a.0, a.1, Ssn, true), RedactTokens(b.0, b.1, Ssn, false);
    TokensQuietly(a.0, a.1, b.1, Ssn, before);
    TokensQuietly(c.0, c.1, d.1, Phone, before);
  }

  /** Redaction is the same whether or not mappings are collected; without collecting, none are added. */
  lemma {:induction false} CollectingIsInvisible(v: Value, t: Tally, u: Tally, before: seq<Mapping>)
    requires Quiet(t, u, before)
    ensures var loud, quiet := RedactValue(v, t, true), RedactValue(v, u, false);
            loud.0 == quiet.0 && Quiet(loud.1, quiet.1, before)
    decreases v
  {
    hide RedactText, RedactValues, Quiet;
    if v.Text? { TextQuietly(v.text, t, u, before); }
    if v.Array? { ValuesQuietly(v.items, t, u, before); }
    if v.Object? { ValuesQuietly(v.values, t, u, before); }
  }

  lemma {:induction false} ValuesQuietly(vs: seq<Value>, t: Tally, u: Tally, before: seq<Mapping>)
    requires Quiet(t, u, before)
    ensures var loud, quiet := RedactValues(vs, t, true), RedactValues(vs, u, false);
            loud.0 == quiet.0 && Quiet(loud.1, quiet.1, before)
    decreases vs
  {
    hide RedactValue, Quiet;
    if vs != [] {
      var front, last := vs[..|vs| - 1], vs[|vs| - 1];
      ValuesQuietly(front, t, u, before);
      CollectingIsInvisible(last, RedactValues(front, t, true).1, RedactValues(front, u, false).1, before);
    }
  }
}
