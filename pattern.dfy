/**
 * The fragment of JavaScript regular expressions that the header recognisers
 * use, with the `i` flag every one of them carries: literal words, `\s+`,
 * `\w+`-style runs (optionally captured), an optional quote `"?`, an optional
 * schema qualifier `(?:\w+\.)?`, and a captured alternation of literal words.
 * `Match` follows the backtracking order of JavaScript's matcher (greedy runs
 * give back one character at a time, alternatives are tried left to right),
 * and `Find` returns the leftmost match, as `String.prototype.match` and
 * `RegExp.prototype.test` do for a pattern without the `g` flag.
 */
module Pattern {
  import opened Wrappers
  import opened Text

  /** The character classes of the `+` runs in the source's patterns. */
  datatype CharClass =
    | Word            // \w   (the source also writes it [\w_])
    | WordDollarHash  // [\w$#]
    | NameChars       // [\w."]
    | Blank           // \s

  predicate InClass(k: CharClass, c: char) {
    match k
    case Word => IsWordChar(c)
    case WordDollarHash => IsWordChar(c) || c == '$' || c == '#'
    case NameChars => IsWordChar(c) || c == '.' || c == '"'
    case Blank => IsSpace(c)
  }

  datatype Elem =
    | Lit(text: string)                    // literal text
    | Hole                                 // the text the source interpolates with ${...}
    | Run(cls: CharClass, capture: bool)   // cls+, a capturing group when `capture`
    | OptLit(text: string)                 // (?:text)?
    | OptQualifier                         // (?:\w+\.)?
    | Choice(options: seq<string>)         // (o1|o2|...), a capturing group

  /** `\s+`. */
  const Space: Elem := Run(Blank, false)

  /** How a successful match at a position ends: where, and the groups it captured, in order. */
  datatype Hit = Hit(end: nat, captures: seq<string>)

  /** A match found by a search: where it starts and ends, and its groups. */
  datatype Found = Found(start: nat, end: nat, captures: seq<string>)

  /** `t` stands at position `i` of `s`, ignoring case. */
  predicate LitAt(s: string, i: nat, t: string) {
    i + |t| <= |s| && EqualsIgnoreCase(s[i..i + |t|], t)
  }

  /** The end of the longest run of `k` characters starting at `i`. */
  function RunEnd(k: CharClass, s: string, i: nat): (j: nat)
    requires i <= |s|
    ensures i <= j <= |s|
    ensures forall m :: i <= m < j ==> InClass(k, s[m])
    ensures j < |s| ==> !InClass(k, s[j])
    decreases |s| - i
  {
    if i < |s| && InClass(k, s[i]) then RunEnd(k, s, i + 1) else i
  }

  /** The first way pattern `p` (with `hole` interpolated) matches `s` from position `i`. */
  function Match(p: seq<Elem>, s: string, hole: string, i: nat): (r: Option<Hit>)
    requires i <= |s|
    ensures r.Some? ==> i <= r.value.end <= |s|
    decreases |p|, 1, 0
  {
    if p == [] then Some(Hit(i, []))
    else
      match p[0]
      case Lit(t) =>
        if LitAt(s, i, t) then Match(p[1..], s, hole, i + |t|) else None
      case Hole =>
        if LitAt(s, i, hole) then Match(p[1..], s, hole, i + |hole|) else None
      case Run(k, cap) =>
        RunTry(p[1..], s, hole, i, RunEnd(k, s, i), cap)
      case OptLit(t) =>
        if LitAt(s, i, t) && Match(p[1..], s, hole, i + |t|).Some?
        then Match(p[1..], s, hole, i + |t|)
        else Match(p[1..], s, hole, i)
      case OptQualifier =>
        // Only the longest \w run can be followed by a '.': every shorter one
        // ends just before another word character.
        var j := RunEnd(Word, s, i);
        if i < j < |s| && s[j] == '.' && Match(p[1..], s, hole, j + 1).Some?
        then Match(p[1..], s, hole, j + 1)
        else Match(p[1..], s, hole, i)
      case Choice(opts) =>
        ChoiceTry(opts, 0, p[1..], s, hole, i)
  }

  /** A run from `i` that may end anywhere from `j` down to `i + 1`, longest first. */
  function RunTry(rest: seq<Elem>, s: string, hole: string, i: nat, j: nat, cap: bool): (r: Option<Hit>)
    requires i <= j <= |s|
    ensures r.Some? ==> i < r.value.end <= |s|
    decreases |rest| + 1, 0, j
  {
    if j == i then None
    else
      match Match(rest, s, hole, j)
      case Some(h) => Some(if cap then Hit(h.end, [s[i..j]] + h.captures) else h)
      case None => RunTry(rest, s, hole, i, j - 1, cap)
  }

  /** The alternatives `opts[k..]`, tried in order, each followed by `rest`. */
  function ChoiceTry(opts: seq<string>, k: nat, rest: seq<Elem>, s: string, hole: string, i: nat): (r: Option<Hit>)
    requires k <= |opts| && i <= |s|
    ensures r.Some? ==> i <= r.value.end <= |s|
    decreases |rest| + 1, 0, |opts| - k
  {
    if k == |opts| then None
    else if LitAt(s, i, opts[k]) && Match(rest, s, hole, i + |opts[k]|).Some? then
      var h := Match(rest, s, hole, i + |opts[k]|).value;
      Some(Hit(h.end, [s[i..i + |opts[k]|]] + h.captures))
    else ChoiceTry(opts, k + 1, rest, s, hole, i)
  }

  /** The leftmost match of `p` in `s` at or after position `i`. */
  function FindFrom(p: seq<Elem>, s: string, hole: string, i: nat): (r: Option<Found>)
    requires i <= |s|
    ensures r.Some? ==> i <= r.value.start <= r.value.end <= |s|
    ensures r.Some? ==> Match(p, s, hole, r.value.start) == Some(Hit(r.value.end, r.value.captures))
    ensures r.Some? ==> forall m :: i <= m < r.value.start ==> Match(p, s, hole, m).None?
    ensures r.None? <==> forall m :: i <= m <= |s| ==> Match(p, s, hole, m).None?
    decreases |s| - i
  {
    match Match(p, s, hole, i)
    case Some(h) => Some(Found(i, h.end, h.captures))
    case None => if i == |s| then None else FindFrom(p, s, hole, i + 1)
  }

  /** `s.match(p)`: the leftmost match of `p` in `s`. */
  function Find(p: seq<Elem>, s: string, hole: string): Option<Found> {
    FindFrom(p, s, hole, 0)
  }

  /** `s.replace(p, repl)`: the leftmost match, and only it, replaced by `repl`. */
  function ReplaceFirst(p: seq<Elem>, s: string, hole: string, repl: string): string {
    match Find(p, s, hole)
    case Some(f) => s[..f.start] + repl + s[f.end..]
    case None => s
  }

  // ------------------------------------------------------------ captures

  /** `t` is text that element `e` can capture. */
  predicate CapturedBy(e: Elem, t: string) {
    match e
    case Run(k, cap) => cap && t != [] && forall m :: 0 <= m < |t| ==> InClass(k, t[m])
    case Choice(opts) => exists o :: o in opts && EqualsIgnoreCase(t, o)
    case _ => false
  }

  /** A capturing group: a capturing run, or an alternation. */
  predicate IsGroup(e: Elem) {
    (e.Run? && e.capture) || e.Choice?
  }

  /** The groups of `p`, in order. */
  function Groups(p: seq<Elem>): (g: seq<Elem>)
    ensures |g| <= |p|
    ensures forall e :: e in g ==> e in p && IsGroup(e)
  {
    if p == [] then []
    else
      var rest := Groups(p[1..]);
      assert forall e :: e in p[1..] ==> e in p;
      (if IsGroup(p[0]) then [p[0]] else []) + rest
  }

  lemma {:induction false} GroupsConcat(a: seq<Elem>, b: seq<Elem>)
    ensures Groups(a + b) == Groups(a) + Groups(b)
  {
    if a == [] {
      assert a + b == b;
    } else {
      assert (a + b)[1..] == a[1..] + b;
      GroupsConcat(a[1..], b);
    }
  }

  lemma GroupsSingle(e: Elem)
    ensures Groups([e]) == if IsGroup(e) then [e] else []
  {
    assert [e][1..] == [];
  }

  lemma {:induction false} NoGroups(p: seq<Elem>)
    requires forall e :: e in p ==> !IsGroup(e)
    ensures Groups(p) == []
  {
    if p != [] {
      assert forall e :: e in p[1..] ==> e in p;
      NoGroups(p[1..]);
    }
  }

  /** One captured text per group of `p`, in order, each one its group can capture, from characters of `s`. */
  predicate CapturesAlign(p: seq<Elem>, captures: seq<string>, s: string) {
    var g := Groups(p);
    && |captures| == |g|
    && forall m :: 0 <= m < |captures| ==>
         CapturedBy(g[m], captures[m]) && forall c :: c in captures[m] ==> c in s
  }

  /** Every captured text was captured by a group of `p` and is made of characters of `s`. */
  predicate CapturesFit(p: seq<Elem>, captures: seq<string>, s: string) {
    forall t :: t in captures ==>
      (exists e :: e in p && CapturedBy(e, t)) && (forall c :: c in t ==> c in s)
  }

  lemma AlignFits(p: seq<Elem>, captures: seq<string>, s: string)
    requires CapturesAlign(p, captures, s)
    ensures CapturesFit(p, captures, s)
  {
    var g := Groups(p);
    forall t | t in captures ensures (exists e :: e in p && CapturedBy(e, t)) && (forall c :: c in t ==> c in s) {
      var m :| 0 <= m < |captures| && captures[m] == t;
      assert g[m] in g;
    }
  }

  lemma SliceChars(s: string, i: nat, j: nat)
    requires i <= j <= |s|
    ensures forall c :: c in s[i..j] ==> c in s
  {
    forall c | c in s[i..j] ensures c in s {
      var m :| 0 <= m < j - i && s[i..j][m] == c;
      assert s[i + m] == c;
    }
  }

  /** Text `t` in front of captures aligned with `rest` aligns them with `[e] + rest`. */
  lemma AlignCons(e: Elem, rest: seq<Elem>, t: string, captures: seq<string>, s: string)
    requires IsGroup(e) && CapturedBy(e, t) && (forall c :: c in t ==> c in s)
    requires CapturesAlign(rest, captures, s)
    ensures CapturesAlign([e] + rest, [t] + captures, s)
  {
    assert ([e] + rest)[1..] == rest;
  }

  /** Captures aligned with `p[1..]` are aligned with `p` when `p[0]` is no group. */
  lemma AlignSkip(p: seq<Elem>, captures: seq<string>, s: string)
    requires p != [] && !IsGroup(p[0])
    requires CapturesAlign(p[1..], captures, s)
    ensures CapturesAlign(p, captures, s)
  {
  }

  /** Where the rest of `p` is matched after a literal, the hole or an optional part. */
  function NextPos(p: seq<Elem>, s: string, hole: string, i: nat): nat
    requires p != [] && !p[0].Run? && !p[0].Choice? && i <= |s|
  {
    match p[0]
    case Lit(t) => i + |t|
    case Hole => i + |hole|
    case OptLit(t) => if LitAt(s, i, t) && Match(p[1..], s, hole, i + |t|).Some? then i + |t| else i
    case OptQualifier =>
      var j := RunEnd(Word, s, i);
      if i < j < |s| && s[j] == '.' && Match(p[1..], s, hole, j + 1).Some? then j + 1 else i
  }

  /** A match past a literal, the hole or an optional part is a match of the rest from `NextPos`. */
  lemma NextPosMatch(p: seq<Elem>, s: string, hole: string, i: nat)
    requires p != [] && !p[0].Run? && !p[0].Choice? && i <= |s|
    requires Match(p, s, hole, i).Some?
    ensures NextPos(p, s, hole, i) <= |s| && Match(p, s, hole, i) == Match(p[1..], s, hole, NextPos(p, s, hole, i))
  {
    match p[0]
    case Lit(t) =>
      assert LitAt(s, i, t);
    case Hole =>
      assert LitAt(s, i, hole);
    case OptLit(t) =>
    case OptQualifier =>
  }

  lemma {:induction false} MatchCaptures(p: seq<Elem>, s: string, hole: string, i: nat)
    requires i <= |s|
    ensures Match(p, s, hole, i).Some? ==> CapturesAlign(p, Match(p, s, hole, i).value.captures, s)
    decreases |p|, 1, 0
  {
    if p != [] && Match(p, s, hole, i).Some? {
      if p[0].Run? {
        RunTryCaptures(p[0].cls, p[1..], s, hole, i, RunEnd(p[0].cls, s, i), p[0].capture);
        assert p == [p[0]] + p[1..];
      } else if p[0].Choice? {
        ChoiceTryCaptures(p[0].options, 0, p[1..], s, hole, i);
        assert p == [p[0]] + p[1..];
      } else {
        NextPosMatch(p, s, hole, i);
        MatchCaptures(p[1..], s, hole, NextPos(p, s, hole, i));
        AlignSkip(p, Match(p, s, hole, i).value.captures, s);
      }
    }
  }

  lemma {:induction false} RunTryCaptures(k: CharClass, rest: seq<Elem>, s: string, hole: string, i: nat, j: nat, cap: bool)
    requires i <= j <= |s|
    requires forall m :: i <= m < j ==> InClass(k, s[m])
    ensures RunTry(rest, s, hole, i, j, cap).Some? ==>
      CapturesAlign([Run(k, cap)] + rest, RunTry(rest, s, hole, i, j, cap).value.captures, s)
    decreases |rest| + 1, 0, j
  {
    if j != i {
      MatchCaptures(rest, s, hole, j);
      match Match(rest, s, hole, j)
      case Some(h) =>
        if cap {
          var t := s[i..j];
          assert CapturedBy(Run(k, cap), t) by {
            forall m | 0 <= m < |t| ensures InClass(k, t[m]) { assert t[m] == s[i + m]; }
          }
          SliceChars(s, i, j);
          AlignCons(Run(k, cap), rest, t, h.captures, s);
        } else {
          AlignSkip([Run(k, cap)] + rest, h.captures, s);
        }
      case None =>
        RunTryCaptures(k, rest, s, hole, i, j - 1, cap);
    }
  }

  lemma {:induction false} ChoiceTryCaptures(opts: seq<string>, k: nat, rest: seq<Elem>, s: string, hole: string, i: nat)
    requires k <= |opts| && i <= |s|
    ensures ChoiceTry(opts, k, rest, s, hole, i).Some? ==>
      CapturesAlign([Choice(opts)] + rest, ChoiceTry(opts, k, rest, s, hole, i).value.captures, s)
    decreases |rest| + 1, 0, |opts| - k
  {
    if k < |opts| {
      if LitAt(s, i, opts[k]) && Match(rest, s, hole, i + |opts[k]|).Some? {
        MatchCaptures(rest, s, hole, i + |opts[k]|);
        var t := s[i..i + |opts[k]|];
        assert opts[k] in opts && EqualsIgnoreCase(t, opts[k]);
        SliceChars(s, i, i + |opts[k]|);
        AlignCons(Choice(opts), rest, t, Match(rest, s, hole, i + |opts[k]|).value.captures, s);
      } else {
        ChoiceTryCaptures(opts, k + 1, rest, s, hole, i);
      }
    }
  }

  /**
   * A search captures one text per group of the pattern, in order, each of
   * a kind its group can capture, from characters of the subject.
   */
  lemma FindCaptures(p: seq<Elem>, s: string, hole: string)
    ensures Find(p, s, hole).Some? ==> CapturesAlign(p, Find(p, s, hole).value.captures, s)
    ensures Find(p, s, hole).Some? ==> CapturesFit(p, Find(p, s, hole).value.captures, s)
  {
    if Find(p, s, hole).Some? {
      MatchCaptures(p, s, hole, Find(p, s, hole).value.start);
      AlignFits(p, Find(p, s, hole).value.captures, s);
    }
  }

  // ------------------------------------------------- single steps of Match

  lemma RunEndAt(k: CharClass, s: string, i: nat, j: nat)
    requires i <= j <= |s|
    requires forall m :: i <= m < j ==> InClass(k, s[m])
    requires j < |s| ==> !InClass(k, s[j])
    ensures RunEnd(k, s, i) == j
    decreases j - i
  {
    if i < j { RunEndAt(k, s, i + 1, j); }
  }

  lemma MatchLitStep(p: seq<Elem>, s: string, hole: string, i: nat)
    requires p != [] && p[0].Lit? && i <= |s| && LitAt(s, i, p[0].text)
    ensures Match(p, s, hole, i) == Match(p[1..], s, hole, i + |p[0].text|)
  {
  }

  lemma MatchHoleStep(p: seq<Elem>, s: string, hole: string, i: nat)
    requires p != [] && p[0].Hole? && i <= |s| && LitAt(s, i, hole)
    ensures Match(p, s, hole, i) == Match(p[1..], s, hole, i + |hole|)
  {
  }

  /** A run followed by a successful rest of the pattern takes the whole run. */
  lemma MatchRunStep(p: seq<Elem>, s: string, hole: string, i: nat, j: nat)
    requires p != [] && p[0].Run? && i < j <= |s|
    requires forall m :: i <= m < j ==> InClass(p[0].cls, s[m])
    requires j < |s| ==> !InClass(p[0].cls, s[j])
    requires Match(p[1..], s, hole, j).Some?
    ensures Match(p, s, hole, i) ==
      var h := Match(p[1..], s, hole, j).value;
      Some(if p[0].capture then Hit(h.end, [s[i..j]] + h.captures) else h)
  {
    RunEndAt(p[0].cls, s, i, j);
  }

  /** A run that cannot take even one character fails. */
  lemma MatchRunFails(p: seq<Elem>, s: string, hole: string, i: nat)
    requires p != [] && p[0].Run? && i <= |s|
    requires i < |s| ==> !InClass(p[0].cls, s[i])
    ensures Match(p, s, hole, i).None?
  {
    RunEndAt(p[0].cls, s, i, i);
  }

  /** A search that finds a match at `i`, and at no earlier position, reports that match. */
  lemma FindAt(p: seq<Elem>, s: string, hole: string, i: nat)
    requires i <= |s|
    requires Match(p, s, hole, i).Some?
    requires forall m :: 0 <= m < i ==> Match(p, s, hole, m).None?
    ensures Find(p, s, hole) == Some(Found(i, Match(p, s, hole, i).value.end, Match(p, s, hole, i).value.captures))
  {
    var f := Find(p, s, hole);
    assert f.Some?;
  }

  // ------------------------------------------------- literals a match needs

  /** `t` stands somewhere in `s` at or after position `i`, ignoring case. */
  predicate LitFrom(s: string, i: nat, t: string) {
    exists j: nat :: i <= j <= |s| && LitAt(s, j, t)
  }

  /** A literal that stands after a later position stands after an earlier one. */
  lemma LitFromLater(s: string, i: nat, j: nat, t: string)
    requires i <= j && LitFrom(s, j, t)
    ensures LitFrom(s, i, t)
  {
    var m: nat :| j <= m <= |s| && LitAt(s, m, t);
    assert i <= m;
  }

  lemma TailHolds(p: seq<Elem>, e: Elem)
    requires e in p && p[0] != e
    ensures e in p[1..]
  {
    assert p == [p[0]] + p[1..];
  }

  /** A pattern with the literal `t` in it matches only where `t` follows. */
  lemma {:induction false} MatchFindsLit(p: seq<Elem>, s: string, hole: string, i: nat, t: string)
    requires i <= |s| && Lit(t) in p && Match(p, s, hole, i).Some?
    ensures LitFrom(s, i, t)
    decreases |p|, 1, 0
  {
    if p[0] == Lit(t) {
      assert LitAt(s, i, t);
    } else {
      TailHolds(p, Lit(t));
      if p[0].Run? {
        RunTryFindsLit(p[1..], s, hole, i, RunEnd(p[0].cls, s, i), p[0].capture, t);
      } else if p[0].Choice? {
        ChoiceTryFindsLit(p[0].options, 0, p[1..], s, hole, i, t);
      } else {
        NextPosMatch(p, s, hole, i);
        var n := NextPos(p, s, hole, i);
        assert i <= n;
        MatchFindsLit(p[1..], s, hole, n, t);
        LitFromLater(s, i, n, t);
      }
    }
  }

  lemma {:induction false} RunTryFindsLit(rest: seq<Elem>, s: string, hole: string, i: nat, j: nat, cap: bool, t: string)
    requires i <= j <= |s| && Lit(t) in rest && RunTry(rest, s, hole, i, j, cap).Some?
    ensures LitFrom(s, i, t)
    decreases |rest| + 1, 0, j
  {
    if Match(rest, s, hole, j).Some? {
      MatchFindsLit(rest, s, hole, j, t);
      LitFromLater(s, i, j, t);
    } else {
      RunTryFindsLit(rest, s, hole, i, j - 1, cap, t);
    }
  }

  lemma {:induction false} ChoiceTryFindsLit(opts: seq<string>, k: nat, rest: seq<Elem>, s: string, hole: string, i: nat, t: string)
    requires k <= |opts| && i <= |s| && Lit(t) in rest && ChoiceTry(opts, k, rest, s, hole, i).Some?
    ensures LitFrom(s, i, t)
    decreases |rest| + 1, 0, |opts| - k
  {
    if LitAt(s, i, opts[k]) && Match(rest, s, hole, i + |opts[k]|).Some? {
      MatchFindsLit(rest, s, hole, i + |opts[k]|, t);
      LitFromLater(s, i, i + |opts[k]|, t);
    } else {
      ChoiceTryFindsLit(opts, k + 1, rest, s, hole, i, t);
    }
  }

  /** A pattern with a literal `.` in it finds nothing in a text without a dot. */
  lemma FindNeedsDot(p: seq<Elem>, s: string, hole: string)
    requires Lit(".") in p && '.' !in s
    ensures Find(p, s, hole).None?
  {
    forall m | 0 <= m <= |s| ensures Match(p, s, hole, m).None? {
      if Match(p, s, hole, m).Some? {
        MatchFindsLit(p, s, hole, m, ".");
        DotFrom(s, m);
      }
    }
  }

  /** A `.` standing in `s`, ignoring case, is a `.` of `s`. */
  lemma DotFrom(s: string, i: nat)
    requires LitFrom(s, i, ".")
    ensures '.' in s
  {
    var j: nat :| i <= j <= |s| && LitAt(s, j, ".");
    assert UpperChar(s[j]) == UpperChar("."[0]);
    assert s[j] in s;
  }

  // --------------------------------------- fragments the header expressions share

  /** `CREATE\s+OR\s+REPLACE\s+`. */
  const CreateOrReplace: seq<Elem> := [Lit("CREATE"), Space, Lit("OR"), Space, Lit("REPLACE"), Space]
  /** `CREATE\s+`. */
  const Create: seq<Elem> := [Lit("CREATE"), Space]
  /** `PACKAGE\s+BODY\s+`. */
  const PackageBody: seq<Elem> := [Lit("PACKAGE"), Space, Lit("BODY"), Space]
  /** The object type, interpolated, and the white space after it. */
  const TypeWord: seq<Elem> := [Hole, Space]
}
