/**
 * Characters and strings as JavaScript sees them in the source: the `\w` and
 * `\s` classes of its regular expressions, `toUpperCase`/`toLowerCase`
 * (ASCII letters only), `includes`, `endsWith`, `split`, `join` and `trim`.
 */
module Text {

  /** `\w`: an ASCII letter, a digit or `_`. */
  predicate IsWordChar(c: char) {
    ('a' <= c <= 'z') || ('A' <= c <= 'Z') || ('0' <= c <= '9') || c == '_'
  }

  /** `\s`, which is also the set of characters `String.prototype.trim` removes. */
  predicate IsSpace(c: char) {
    c == ' ' || c == '\t' || c == '\n' || c == '\r' || c == '\U{B}' || c == '\U{C}'
    || c == '\U{A0}' || c == '\U{1680}' || ('\U{2000}' <= c <= '\U{200A}')
    || c == '\U{2028}' || c == '\U{2029}' || c == '\U{202F}' || c == '\U{205F}'
    || c == '\U{3000}' || c == '\U{FEFF}'
  }

  predicate IsLetter(c: char) {
    ('a' <= c <= 'z') || ('A' <= c <= 'Z')
  }

  function UpperChar(c: char): (u: char)
    ensures IsLetter(c) <==> IsLetter(u)
    ensures IsWordChar(c) <==> IsWordChar(u)
    ensures !('a' <= u <= 'z')
  {
    if 'a' <= c <= 'z' then (c as int - 32) as char else c
  }

  function LowerChar(c: char): (l: char)
    ensures !('A' <= l <= 'Z')
  {
    if 'A' <= c <= 'Z' then (c as int + 32) as char else c
  }

  /** `s.toUpperCase()`. */
  function Upper(s: string): (u: string)
    ensures |u| == |s|
  {
    seq(|s|, i requires 0 <= i < |s| => UpperChar(s[i]))
  }

  /** `s.toLowerCase()`. */
  function Lower(s: string): (l: string)
    ensures |l| == |s|
  {
    seq(|s|, i requires 0 <= i < |s| => LowerChar(s[i]))
  }

  /** No character of `s` changes under `toUpperCase`. */
  predicate IsUpperCase(s: string) {
    forall i :: 0 <= i < |s| ==> UpperChar(s[i]) == s[i]
  }

  /** Equality under the `i` flag of a regular expression. */
  predicate EqualsIgnoreCase(a: string, b: string) {
    |a| == |b| && forall i :: 0 <= i < |a| ==> UpperChar(a[i]) == UpperChar(b[i])
  }

  /** `needle` stands in `hay` from position `i`. */
  predicate OccursAt(hay: string, needle: string, i: int) {
    0 <= i <= |hay| - |needle| && hay[i..i + |needle|] == needle
  }

  /** `hay.includes(needle)`. */
  predicate Contains(hay: string, needle: string) {
    exists i | 0 <= i <= |hay| - |needle| :: OccursAt(hay, needle, i)
  }

  /** `s.endsWith(suffix)`. */
  predicate EndsWith(s: string, suffix: string) {
    |suffix| <= |s| && s[|s| - |suffix|..] == suffix
  }

  /** `s.split(sep)` where `sep` is one character or a class of them: the pieces between separators. */
  function SplitOn(s: string, seps: set<char>): (r: seq<string>)
    ensures |r| >= 1
  {
    if s == [] then [""]
    else
      var rest := SplitOn(s[1..], seps);
      if s[0] in seps then [""] + rest else [[s[0]] + rest[0]] + rest[1..]
  }

  /** `parts.join(sep)`. */
  function Join(parts: seq<string>, sep: string): string {
    if |parts| == 0 then ""
    else if |parts| == 1 then parts[0]
    else parts[0] + sep + Join(parts[1..], sep)
  }

  /** `parts.join("")`, from the end so that pushing one more part appends it. */
  function Concat(parts: seq<string>): string {
    if parts == [] then "" else Concat(parts[..|parts| - 1]) + parts[|parts| - 1]
  }

  /** Every character of `s` that is in `seps` replaced by `d`. */
  function ReplaceChars(s: string, seps: set<char>, d: char): (r: string)
    ensures |r| == |s|
  {
    seq(|s|, i requires 0 <= i < |s| => if s[i] in seps then d else s[i])
  }

  function TrimStart(s: string): string {
    if s != [] && IsSpace(s[0]) then TrimStart(s[1..]) else s
  }

  function TrimEnd(s: string): string {
    if s != [] && IsSpace(s[|s| - 1]) then TrimEnd(s[..|s| - 1]) else s
  }

  /** `s.trim()`. */
  function Trim(s: string): string {
    TrimEnd(TrimStart(s))
  }

  predicate AllSpace(s: string) {
    forall i :: 0 <= i < |s| ==> IsSpace(s[i])
  }

  // ---------------------------------------------------------------- lemmas

  /** Splitting and joining again gives back the string with every separator replaced by `d`. */
  lemma {:induction false} JoinSplit(s: string, seps: set<char>, d: char)
    ensures Join(SplitOn(s, seps), [d]) == ReplaceChars(s, seps, d)
  {
    if s != [] {
      var rest := SplitOn(s[1..], seps);
      JoinSplit(s[1..], seps, d);
      assert ReplaceChars(s, seps, d) == [if s[0] in seps then d else s[0]] + ReplaceChars(s[1..], seps, d);
      if s[0] !in seps {
        var r := [[s[0]] + rest[0]] + rest[1..];
        if |rest| > 1 {
          assert r[1..] == rest[1..];
          assert Join(rest, [d]) == rest[0] + [d] + Join(rest[1..], [d]);
        }
      } else {
        assert ([""] + rest)[1..] == rest;
      }
    }
  }

  /** Joining the pieces of a split on one character with that character gives back the string. */
  lemma SplitRoundTrip(s: string, c: char)
    ensures Join(SplitOn(s, {c}), [c]) == s
  {
    JoinSplit(s, {c}, c);
  }

  /** No piece of a split holds a separator. */
  lemma {:induction false} SplitPiecesFree(s: string, seps: set<char>)
    ensures forall k, i :: 0 <= k < |SplitOn(s, seps)| && 0 <= i < |SplitOn(s, seps)[k]| ==> SplitOn(s, seps)[k][i] !in seps
  {
    if s != [] {
      SplitPiecesFree(s[1..], seps);
    }
  }

  lemma {:induction false} JoinFree(parts: seq<string>, sep: string, c: char)
    requires forall k :: 0 <= k < |parts| ==> c !in parts[k]
    requires c !in sep
    ensures c !in Join(parts, sep)
  {
    if |parts| > 1 {
      JoinFree(parts[1..], sep, c);
    }
  }

  lemma UpperIsUpperCase(s: string)
    ensures IsUpperCase(Upper(s))
  {
  }

  lemma UpperConcat(a: string, b: string)
    ensures Upper(a + b) == Upper(a) + Upper(b)
  {
    assert forall i :: 0 <= i < |a + b| ==> Upper(a + b)[i] == (Upper(a) + Upper(b))[i];
  }

  lemma LowerConcat(a: string, b: string)
    ensures Lower(a + b) == Lower(a) + Lower(b)
  {
    assert forall i :: 0 <= i < |a + b| ==> Lower(a + b)[i] == (Lower(a) + Lower(b))[i];
  }

  /** Characters drawn from an upper-case string form an upper-case string. */
  lemma UpperCaseChars(t: string, s: string)
    requires IsUpperCase(s)
    requires forall c :: c in t ==> c in s
    ensures IsUpperCase(t)
  {
    forall i | 0 <= i < |t| ensures UpperChar(t[i]) == t[i] {
      assert t[i] in t;
      var j :| 0 <= j < |s| && s[j] == t[i];
    }
  }

  /** A string holding `a + b` holds `a`. */
  lemma ContainsPrefix(s: string, a: string, b: string)
    requires Contains(s, a + b)
    ensures Contains(s, a)
  {
    var i :| 0 <= i <= |s| - |a + b| && OccursAt(s, a + b, i);
    assert s[i..i + |a + b|] == a + b;
    assert s[i..i + |a|] == (a + b)[..|a|] == a;
    assert OccursAt(s, a, i);
  }

  /** A trimmed string is empty exactly when the whole string was white space. */
  lemma {:induction false} TrimEmpty(s: string)
    ensures Trim(s) == "" <==> AllSpace(s)
  {
    TrimStartSpaces(s);
    TrimEndEmpty(TrimStart(s));
  }

  lemma {:induction false} TrimStartSpaces(s: string)
    ensures TrimStart(s) == "" <==> AllSpace(s)
    ensures TrimStart(s) != "" ==> !IsSpace(TrimStart(s)[0])
  {
    if s != [] && IsSpace(s[0]) {
      TrimStartSpaces(s[1..]);
      if AllSpace(s[1..]) {
        forall i | 0 <= i < |s| ensures IsSpace(s[i]) {
          if i > 0 { assert s[i] == s[1..][i - 1]; }
        }
      }
    }
  }

  lemma {:induction false} TrimEndEmpty(s: string)
    requires s == [] || !IsSpace(s[0])
    ensures TrimEnd(s) == "" <==> s == ""
  {
    if s != [] && IsSpace(s[|s| - 1]) {
      assert |s| > 1;
      TrimEndEmpty(s[..|s| - 1]);
    }
  }

  /** Upper-casing brings in no character that is not a letter. */
  lemma UpperKeepsOut(s: string, c: char)
    requires c !in s && !IsLetter(c)
    ensures c !in Upper(s)
  {
    forall i | 0 <= i < |s| ensures Upper(s)[i] != c {
      assert s[i] in s;
    }
  }

  /** A string holding a separator splits into at least two pieces. */
  lemma {:induction false} SplitAtSeparator(s: string, seps: set<char>, i: nat)
    requires i < |s| && s[i] in seps
    ensures |SplitOn(s, seps)| >= 2
  {
    if s[0] !in seps {
      SplitAtSeparator(s[1..], seps, i - 1);
    }
  }

  lemma ConcatOne(x: string)
    ensures Concat([x]) == x
  {
    assert [x][..0] == [];
  }

  lemma AppendAssoc<T>(a: seq<T>, b: seq<T>, c: seq<T>)
    ensures (a + b) + c == a + (b + c)
  {
  }

  /** Joining two runs of parts is joining each and gluing the results. */
  lemma {:induction false} ConcatAppend(a: seq<string>, b: seq<string>)
    ensures Concat(a + b) == Concat(a) + Concat(b)
    decreases |b|
  {
    if b == [] {
      assert a + b == a;
    } else {
      var b' := b[..|b| - 1];
      assert (a + b)[..|a + b| - 1] == a + b';
      assert (a + b)[|a + b| - 1] == b[|b| - 1];
      ConcatAppend(a, b');
    }
  }

  /** A string without separators splits into itself alone. */
  lemma {:induction false} SplitWithoutSeparator(s: string, seps: set<char>)
    requires forall i :: 0 <= i < |s| ==> s[i] !in seps
    ensures SplitOn(s, seps) == [s]
  {
    if s != [] {
      SplitWithoutSeparator(s[1..], seps);
      assert s[0] !in seps;
      assert [s[0]] + s[1..] == s;
    }
  }

  /** Replacing a character by itself changes nothing. */
  lemma ReplaceSelf(s: string, c: char)
    ensures ReplaceChars(s, {c}, c) == s
  {
  }

  /** `s.replace(/c/g, "")`: every `c` removed. */
  function Without(s: string, c: char): (r: string)
    ensures c !in r
    ensures forall x :: x in r ==> x in s && x != c
    ensures c !in s ==> r == s
  {
    if s == [] then ""
    else
      var rest := Without(s[1..], c);
      assert forall x :: x in s[1..] ==> x in s;
      if s[0] == c then rest else [s[0]] + rest
  }

  /** Every character of a piece of a split comes from the split string. */
  lemma {:induction false} SplitPiecesFrom(s: string, seps: set<char>)
    ensures forall k, c :: 0 <= k < |SplitOn(s, seps)| && c in SplitOn(s, seps)[k] ==> c in s
  {
    if s != [] {
      SplitPiecesFrom(s[1..], seps);
      assert forall c :: c in s[1..] ==> c in s;
    }
  }

  /** `a` is `b` with some elements left out, the rest in their order. */
  predicate Sublist<T(==)>(a: seq<T>, b: seq<T>) {
    if a == [] then true
    else if b == [] then false
    else if a[0] == b[0] then Sublist(a[1..], b[1..])
    else Sublist(a, b[1..])
  }

  /** A sublist of the tail is a sublist. */
  lemma {:induction false} SublistSkip<T>(a: seq<T>, b: seq<T>)
    requires b != [] && Sublist(a, b[1..])
    ensures Sublist(a, b)
    decreases |b|, 1
  {
    if a != [] && a[0] == b[0] {
      SublistDropHead(a, b[1..]);
    }
  }

  /** Leaving out the first element keeps a sublist a sublist. */
  lemma {:induction false} SublistDropHead<T>(a: seq<T>, b: seq<T>)
    requires a != [] && Sublist(a, b)
    ensures Sublist(a[1..], b)
    decreases |b|, 2
  {
    if a[0] == b[0] {
      SublistSkip(a[1..], b);
    } else {
      SublistDropHead(a, b[1..]);
      SublistSkip(a[1..], b);
    }
  }
}
