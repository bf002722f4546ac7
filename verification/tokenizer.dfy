/**
 * The tokenizer of the Compute language. It cuts the source at every
 * whitespace character, then cuts every unresolved fragment at each sign of
 * the sign list in turn, and finally merges an exponent literal such as
 * `1e+5`, which the sign `+` has cut in three, back into one token.
 *
 * Tokens are strings with a one-character prefix: `*` for a sign, `#` for
 * anything else (numbers and names alike). `?` marks a fragment that is not
 * resolved yet; none survives.
 */
module Tokenizer {
  import opened Common

  // ---------------------------------------------------------------------------
  // Characters and substrings

  /** JavaScript's `\s`: the white-space and line-terminator characters of ECMAScript. */
  predicate IsWhitespace(c: char) {
    || c == ' ' || c == '\t' || c == '\n' || c == '\r'
    || c as int == 0x0B || c as int == 0x0C || c as int == 0xA0 || c as int == 0x1680
    || 0x2000 <= c as int <= 0x200A
    || c as int == 0x2028 || c as int == 0x2029 || c as int == 0x202F || c as int == 0x205F
    || c as int == 0x3000 || c as int == 0xFEFF
  }

  predicate NoWhitespace(s: string) {
    forall i :: 0 <= i < |s| ==> !IsWhitespace(s[i])
  }

  /** The text with every whitespace character deleted. */
  function DeleteWhitespace(s: string): string {
    if |s| == 0 then [] else (if IsWhitespace(s[0]) then [] else [s[0]]) + DeleteWhitespace(s[1..])
  }

  function Concat(parts: seq<string>): string {
    if |parts| == 0 then [] else parts[0] + Concat(parts[1..])
  }

  /** Whether `x` occurs in `s` starting at index `k`. */
  predicate FoundAt(s: string, x: string, k: nat) {
    k + |x| <= |s| && s[k..k + |x|] == x
  }

  /** Whether `x` occurs in `s` as a contiguous substring. */
  predicate Contains(s: string, x: string) {
    exists k: nat :: k <= |s| && FoundAt(s, x, k)
  }

  /** Being a substring is transitive. */
  lemma ContainsTrans(s: string, y: string, x: string)
    requires Contains(s, y) && Contains(y, x)
    ensures Contains(s, x)
  {
    var a: nat :| a <= |s| && FoundAt(s, y, a);
    var b: nat :| b <= |y| && FoundAt(y, x, b);
    assert a + |y| <= |s| && b + |x| <= |y|;
    forall i | 0 <= i < |x| ensures s[a + b + i] == x[i] {
      assert x[i] == y[b + i] == s[a..a + |y|][b + i];
    }
    assert s[a + b..a + b + |x|] == x;
    assert FoundAt(s, x, a + b);
  }

  lemma ContainsNoWhitespace(s: string, y: string)
    requires Contains(s, y) && NoWhitespace(s)
    ensures NoWhitespace(y)
  {
    var a: nat :| a <= |s| && FoundAt(s, y, a);
    forall i | 0 <= i < |y| ensures !IsWhitespace(y[i]) {
      assert y[i] == s[a..a + |y|][i] == s[a + i];
    }
  }

  // ---------------------------------------------------------------------------
  // The two kinds of cut

  /** `code.split(/\s/g)`: cut at every single whitespace character, keeping empty pieces. */
  function SplitWhitespace(s: string): (r: seq<string>)
    ensures |r| > 0
    ensures Concat(r) == DeleteWhitespace(s)
    ensures forall i :: 0 <= i < |r| ==> NoWhitespace(r[i])
  {
    if |s| == 0 then [""]
    else
      var r := SplitWhitespace(s[1..]);
      if IsWhitespace(s[0]) then
        assert Concat([""] + r) == Concat(r) by { assert ([""] + r)[1..] == r; }
        [""] + r
      else
        var h := [s[0]] + r[0];
        assert Concat([h] + r[1..]) == [s[0]] + Concat(r) by {
          assert ([h] + r[1..])[1..] == r[1..];
          assert Concat(r) == r[0] + Concat(r[1..]);
        }
        assert NoWhitespace(h) by {
          assert NoWhitespace(r[0]);
          forall i | 1 <= i < |h| ensures !IsWhitespace(h[i]) {
            assert h[i] == r[0][i - 1];
          }
        }
        [h] + r[1..]
  }

  /** The whitespace characters of `s`, in order: the separators `split(/\s/g)` cuts at. */
  function Separators(s: string): (w: seq<char>)
    ensures forall i :: 0 <= i < |w| ==> IsWhitespace(w[i])
  {
    if |s| == 0 then [] else (if IsWhitespace(s[0]) then [s[0]] else []) + Separators(s[1..])
  }

  /** The pieces put back together, with the `i`-th separator between pieces `i` and `i + 1`. */
  function Rejoin(parts: seq<string>, seps: seq<char>): string
    requires |parts| == |seps| + 1
    decreases |seps|
  {
    if |seps| == 0 then parts[0] else parts[0] + [seps[0]] + Rejoin(parts[1..], seps[1..])
  }

  /** Prefixing a character to the first piece prefixes it to the rejoined text. */
  lemma RejoinCons(c: char, parts: seq<string>, seps: seq<char>)
    requires |parts| == |seps| + 1
    ensures Rejoin([[c] + parts[0]] + parts[1..], seps) == [c] + Rejoin(parts, seps)
  {
    var q := [[c] + parts[0]] + parts[1..];
    if |seps| > 0 {
      assert q[1..] == parts[1..];
      assert Rejoin(q, seps) == ([c] + parts[0]) + [seps[0]] + Rejoin(parts[1..], seps[1..]);
    }
  }

  /**
   * `split(/\s/g)` cuts exactly at the whitespace: there is one more piece
   * than there are whitespace characters, and putting each whitespace
   * character back between its neighbouring pieces gives the source again.
   * With the pieces free of whitespace, no piece could be split further.
   */
  lemma {:induction false} SplitWhitespaceRejoin(s: string)
    ensures |SplitWhitespace(s)| == |Separators(s)| + 1
    ensures Rejoin(SplitWhitespace(s), Separators(s)) == s
    decreases |s|
  {
    if |s| > 0 {
      var r := SplitWhitespace(s[1..]);
      SplitWhitespaceRejoin(s[1..]);
      if IsWhitespace(s[0]) {
        assert SplitWhitespace(s) == [""] + r;
        assert Separators(s) == [s[0]] + Separators(s[1..]);
        assert ([""] + r)[1..] == r;
        assert Rejoin([""] + r, Separators(s)) == "" + [s[0]] + Rejoin(r, Separators(s[1..]));
        assert s == [s[0]] + s[1..];
      } else {
        assert SplitWhitespace(s) == [[s[0]] + r[0]] + r[1..];
        assert Separators(s) == Separators(s[1..]);
        RejoinCons(s[0], r, Separators(s[1..]));
        assert s == [s[0]] + s[1..];
      }
    }
  }

  /** `parts.join(sep)`. */
  function Join(parts: seq<string>, sep: string): string
    requires |parts| > 0
  {
    if |parts| == 1 then parts[0] else parts[0] + sep + Join(parts[1..], sep)
  }

  /** The leftmost occurrence of `sep` at or after `i`, or `|s|` when there is none. */
  function NextSep(s: string, sep: string, i: nat): (j: nat)
    requires |sep| > 0 && i <= |s|
    ensures i <= j <= |s|
    ensures j < |s| ==> FoundAt(s, sep, j)
    ensures forall k :: i <= k < j ==> !FoundAt(s, sep, k)
    decreases |s| - i
  {
    if i + |sep| > |s| then |s|
    else if FoundAt(s, sep, i) then i
    else NextSep(s, sep, i + 1)
  }

  /** `s[i..].split(sep)`: the piece up to the next occurrence, then the split of what follows it. */
  function SplitFrom(s: string, sep: string, i: nat): (r: seq<string>)
    requires |sep| > 0 && i <= |s|
    ensures |r| > 0
    decreases |s| - i
  {
    var j := NextSep(s, sep, i);
    if j < |s| then [s[i..j]] + SplitFrom(s, sep, j + |sep|) else [s[i..]]
  }

  /**
   * `s.split(sep)` for a non-empty separator: cut at the leftmost occurrence,
   * then go on after it, so occurrences never overlap.
   */
  function Split(s: string, sep: string): (r: seq<string>)
    requires |sep| > 0
    ensures |r| > 0
  {
    SplitFrom(s, sep, 0)
  }

  lemma JoinCons(h: string, r: seq<string>, sep: string)
    requires |r| > 0
    ensures Join([h] + r, sep) == h + sep + Join(r, sep)
  {
    assert ([h] + r)[0] == h && ([h] + r)[1..] == r;
  }

  lemma SliceThree(s: string, i: nat, j: nat, l: nat)
    requires i <= j <= l <= |s|
    ensures s[i..] == s[i..j] + s[j..l] + s[l..]
  {
  }

  lemma {:induction false} SplitFromJoin(s: string, sep: string, i: nat)
    requires |sep| > 0 && i <= |s|
    ensures Join(SplitFrom(s, sep, i), sep) == s[i..]
    decreases |s| - i
  {
    var j := NextSep(s, sep, i);
    if j < |s| {
      var l := j + |sep|;
      SplitFromJoin(s, sep, l);
      var r := SplitFrom(s, sep, l);
      assert SplitFrom(s, sep, i) == [s[i..j]] + r;
      JoinCons(s[i..j], r, sep);
      assert s[j..l] == sep;
      SliceThree(s, i, j, l);
    }
  }

  /** Joining the pieces with the separator gives the text back. */
  lemma SplitJoin(s: string, sep: string)
    requires |sep| > 0
    ensures Join(Split(s, sep), sep) == s
  {
    SplitFromJoin(s, sep, 0);
  }

  /** A piece that ends before the next occurrence holds no occurrence. */
  lemma PieceAvoids(s: string, sep: string, i: nat, j: nat)
    requires |sep| > 0 && i <= j <= |s|
    requires forall k :: i <= k < j ==> !FoundAt(s, sep, k)
    ensures !Contains(s[i..j], sep)
  {
    if Contains(s[i..j], sep) {
      var k: nat :| k <= j - i && FoundAt(s[i..j], sep, k);
      forall m | 0 <= m < |sep| ensures s[i + k + m] == sep[m] {
        assert sep[m] == s[i..j][k..k + |sep|][m] == s[i..j][k + m];
      }
      assert s[i + k..i + k + |sep|] == sep;
      assert FoundAt(s, sep, i + k);
    }
  }

  lemma {:induction false} SplitFromPieces(s: string, sep: string, i: nat)
    requires |sep| > 0 && i <= |s|
    ensures forall m :: 0 <= m < |SplitFrom(s, sep, i)| ==>
              !Contains(SplitFrom(s, sep, i)[m], sep) && Contains(s, SplitFrom(s, sep, i)[m])
    decreases |s| - i
  {
    var j := NextSep(s, sep, i);
    var q := SplitFrom(s, sep, i);
    if j < |s| {
      SplitFromPieces(s, sep, j + |sep|);
      PieceAvoids(s, sep, i, j);
      assert FoundAt(s, s[i..j], i);
      forall m | 1 <= m < |q| ensures q[m] == SplitFrom(s, sep, j + |sep|)[m - 1] {}
    } else {
      PieceAvoids(s, sep, i, |s|);
      assert s[i..] == s[i..|s|];
      assert FoundAt(s, s[i..], i);
    }
  }

  /**
   * A piece cut at `j`, followed by all but the last character of the
   * separator found there, still holds no occurrence: nothing that starts
   * inside the piece, not even one running into the cut, came first.
   */
  lemma CutLeftmost(s: string, sep: string, i: nat, j: nat)
    requires |sep| > 0 && i <= j && FoundAt(s, sep, j)
    requires forall k :: i <= k < j ==> !FoundAt(s, sep, k)
    ensures !Contains(s[i..j] + sep[..|sep| - 1], sep)
  {
    var e := j + |sep| - 1;
    assert s[i..j] + sep[..|sep| - 1] == s[i..e] by {
      assert sep[..|sep| - 1] == s[j..e];
    }
    if Contains(s[i..e], sep) {
      var k: nat :| k <= e - i && FoundAt(s[i..e], sep, k);
      forall m | 0 <= m < |sep| ensures s[i + k + m] == sep[m] {
        assert sep[m] == s[i..e][k..k + |sep|][m] == s[i..e][k + m];
      }
      assert s[i + k..i + k + |sep|] == sep;
      assert FoundAt(s, sep, i + k);
    }
  }

  lemma {:induction false} SplitFromLeftmost(s: string, sep: string, i: nat)
    requires |sep| > 0 && i <= |s|
    ensures forall m :: 0 <= m < |SplitFrom(s, sep, i)| - 1 ==>
              !Contains(SplitFrom(s, sep, i)[m] + sep[..|sep| - 1], sep)
    decreases |s| - i
  {
    var j := NextSep(s, sep, i);
    var q := SplitFrom(s, sep, i);
    if j < |s| {
      var r := SplitFrom(s, sep, j + |sep|);
      SplitFromLeftmost(s, sep, j + |sep|);
      CutLeftmost(s, sep, i, j);
      assert q == [s[i..j]] + r;
      forall m | 1 <= m < |q| - 1 ensures !Contains(q[m] + sep[..|sep| - 1], sep) {
        assert q[m] == r[m - 1];
      }
    }
  }

  /**
   * No piece holds the separator, and every piece occurs in the text. Each
   * cut is at the leftmost occurrence: no piece but the last, followed by
   * the separator's first `|sep| - 1` characters, holds an occurrence, which
   * fixes the pieces even for a self-overlapping separator such as `==`.
   */
  lemma SplitPieces(s: string, sep: string)
    requires |sep| > 0
    ensures forall i :: 0 <= i < |Split(s, sep)| ==> !Contains(Split(s, sep)[i], sep) && Contains(s, Split(s, sep)[i])
    ensures forall i :: 0 <= i < |Split(s, sep)| - 1 ==> !Contains(Split(s, sep)[i] + sep[..|sep| - 1], sep)
  {
    SplitFromPieces(s, sep, 0);
    SplitFromLeftmost(s, sep, 0);
  }

  /** `"===".split("==")` is `["", "="]`: the cut takes the leftmost `==`. */
  lemma OverlapSplit()
    ensures Split("===", "==") == ["", "="]
  {
    assert FoundAt("===", "==", 0);
    assert NextSep("===", "==", 0) == 0;
    assert NextSep("===", "==", 2) == 3;
    assert "==="[0..0] == "" && "==="[2..] == "=";
  }

  // ---------------------------------------------------------------------------
  // Token prefixes

  predicate IsUnresolved(t: string) {
    |t| > 0 && t[0] == '?'
  }

  function Payload(t: string): string {
    if |t| == 0 then t else t[1..]
  }

  /** All payloads of the tokens, prefixes stripped, joined in order. */
  function Payloads(ts: seq<string>): string {
    if |ts| == 0 then [] else Payload(ts[0]) + Payloads(ts[1..])
  }

  lemma {:induction false} PayloadsAppend(a: seq<string>, b: seq<string>)
    ensures Payloads(a + b) == Payloads(a) + Payloads(b)
  {
    if |a| > 0 {
      assert (a + b)[0] == a[0];
      assert (a + b)[1..] == a[1..] + b;
      PayloadsAppend(a[1..], b);
    } else {
      assert a + b == b;
    }
  }

  /** The kinds `is_sign`, `is_number` tell apart, with what `get_sign`, `get_number` extract. */
  datatype TokenKind = SignToken(sign: string) | NumberToken(lexeme: string) | OtherToken

  /** `is_sign`/`get_sign` and `is_number`/`get_number`, read off the prefix. */
  function Classify(t: string): (k: TokenKind)
    ensures k.SignToken? <==> |t| > 0 && t[0] == '*'
    ensures k.NumberToken? <==> |t| > 0 && t[0] == '#'
    ensures k.SignToken? ==> t == "*" + k.sign
    ensures k.NumberToken? ==> t == "#" + k.lexeme
  {
    if |t| > 0 && t[0] == '*' then SignToken(t[1..])
    else if |t| > 0 && t[0] == '#' then NumberToken(t[1..])
    else OtherToken
  }

  // ---------------------------------------------------------------------------
  // Sign cutting

  /** `parts.flatMap(p => ["*" + sign, "?" + p])`. */
  function SignAndPiece(parts: seq<string>, sign: string): (r: seq<string>)
    ensures |r| == 2 * |parts|
    ensures forall i :: 0 <= i < |parts| ==> r[2 * i] == "*" + sign && r[2 * i + 1] == "?" + parts[i]
  {
    if |parts| == 0 then []
    else
      var rest := SignAndPiece(parts[1..], sign);
      var r := ["*" + sign, "?" + parts[0]] + rest;
      assert forall i :: 0 <= i < |parts| ==> r[2 * i] == "*" + sign && r[2 * i + 1] == "?" + parts[i] by {
        forall i | 1 <= i < |parts| ensures r[2 * i] == "*" + sign && r[2 * i + 1] == "?" + parts[i] {
          assert r[2 * i] == rest[2 * (i - 1)] && r[2 * i + 1] == rest[2 * (i - 1) + 1];
          assert parts[1..][i - 1] == parts[i];
        }
      }
      r
  }

  /** `.filter(p => p !== "?")`: drops the fragments left empty by a cut. */
  function DropEmpty(ts: seq<string>): (r: seq<string>)
    ensures forall i :: 0 <= i < |r| ==> r[i] != "?" && r[i] in ts
  {
    if |ts| == 0 then [] else (if ts[0] == "?" then [] else [ts[0]]) + DropEmpty(ts[1..])
  }

  /** One unresolved fragment cut at every occurrence of `sign`. */
  function CutFragment(payload: string, sign: string): seq<string>
    requires |sign| > 0
  {
    DropEmpty(SignAndPiece(Split(payload, sign), sign)[1..])
  }

  /** One step of the `reduce`: every unresolved token is cut at `sign`, the others stay. */
  function CutAll(ts: seq<string>, sign: string): seq<string>
    requires |sign| > 0
  {
    if |ts| == 0 then []
    else (if IsUnresolved(ts[0]) then CutFragment(ts[0][1..], sign) else [ts[0]]) + CutAll(ts[1..], sign)
  }

  predicate ValidSigns(signs: seq<string>) {
    forall k :: 0 <= k < |signs| ==> |signs[k]| > 0 && NoWhitespace(signs[k])
  }

  /** The whole `reduce` over the sign list, in list order. */
  function CutEach(ts: seq<string>, signs: seq<string>): seq<string>
    requires ValidSigns(signs)
    decreases |signs|
  {
    if |signs| == 0 then ts else CutEach(CutAll(ts, signs[0]), signs[1..])
  }

  // ---------------------------------------------------------------------------
  // Exponent fixup

  predicate IsDigit(c: char) {
    '0' <= c <= '9'
  }

  predicate AllDigits(s: string) {
    forall i :: 0 <= i < |s| ==> IsDigit(s[i])
  }

  /** `0|[1-9]\d*`. */
  predicate IsInteger(s: string) {
    s == "0" || (|s| > 0 && '1' <= s[0] <= '9' && AllDigits(s[1..]))
  }

  /** `([1-9]\d*|0)(\.\d*)?|\.\d+`. */
  predicate IsMantissa(s: string) {
    var k := IndexOf(s, '.');
    if k == -1 then IsInteger(s)
    else if k == 0 then |s| > 1 && AllDigits(s[1..])
    else IsInteger(s[..k]) && AllDigits(s[k + 1..])
  }

  /** `^\?(mantissa)[eE]$`. */
  predicate IsMantissaE(t: string) {
    |t| >= 2 && t[0] == '?' && (t[|t| - 1] == 'e' || t[|t| - 1] == 'E') && IsMantissa(t[1..|t| - 1])
  }

  /** `^\*[+-]$`. */
  predicate IsPlusMinus(t: string) {
    t == "*+" || t == "*-"
  }

  /** `^\?(0|[1-9]\d*)$`. */
  predicate IsIntegerFragment(t: string) {
    |t| > 0 && t[0] == '?' && IsInteger(t[1..])
  }

  /** Whether the three tokens at `i` are merged into one exponent literal. */
  predicate MergesAt(ts: seq<string>, i: nat) {
    i + 2 < |ts| && IsMantissaE(ts[i]) && IsPlusMinus(ts[i + 1]) && IsIntegerFragment(ts[i + 2])
  }

  /** How many tokens one step of the fixup consumes at the front of `ts`. */
  function MergeWidth(ts: seq<string>): (n: nat)
    requires |ts| > 0
    ensures n <= |ts|
  {
    if MergesAt(ts, 0) then 3 else 1
  }

  /**
   * The token one step of the fixup emits: a matching triple becomes one `#`
   * token, any other unresolved fragment becomes a `#` token, and a sign
   * token stays.
   */
  function MergeStep(ts: seq<string>): string
    requires |ts| > 0
  {
    if MergesAt(ts, 0) then "#" + ts[0][1..] + ts[1][1..] + ts[2][1..]
    else if IsUnresolved(ts[0]) then "#" + ts[0][1..]
    else ts[0]
  }

  /** The one-pass fixup, left to right; after a merge the scan resumes behind the triple. */
  function MergeExponents(ts: seq<string>): seq<string>
    decreases |ts|
  {
    if |ts| == 0 then [] else [MergeStep(ts)] + MergeExponents(ts[MergeWidth(ts)..])
  }

  function Mark(pieces: seq<string>): (r: seq<string>)
    ensures |r| == |pieces|
    ensures forall i :: 0 <= i < |r| ==> r[i] == "?" + pieces[i]
  {
    if |pieces| == 0 then [] else ["?" + pieces[0]] + Mark(pieces[1..])
  }

  /** `tokenize`, for a given sign list. */
  function TokenizeWith(signs: seq<string>, code: string): seq<string>
    requires ValidSigns(signs)
  {
    MergeExponents(CutEach(Mark(SplitWhitespace(code)), signs))
  }

  // ---------------------------------------------------------------------------
  // What the cuts keep

  /** Sign `signs[k]` holds none of the signs listed before it as a substring. */
  predicate Unshadowed(signs: seq<string>, k: nat)
    requires k < |signs|
  {
    forall j :: 0 <= j < k ==> !Contains(signs[k], signs[j])
  }

  /**
   * The shape of a token once the signs `done` have been cut: either a sign
   * token for a sign of `done` holding no earlier sign, or an unresolved
   * fragment free of whitespace and of every sign of `done` (and not empty
   * once some sign has been cut).
   */
  predicate CutShape(t: string, done: seq<string>) {
    && |t| > 0
    && (t[0] == '*' || t[0] == '?')
    && (t[0] == '*' ==> |t| > 1 && exists k :: 0 <= k < |done| && t[1..] == done[k] && Unshadowed(done, k))
    && (t[0] == '?' ==>
          && NoWhitespace(t[1..])
          && (|done| > 0 ==> |t| > 1)
          && forall k :: 0 <= k < |done| ==> !Contains(t[1..], done[k]))
  }

  predicate AllCutShape(ts: seq<string>, done: seq<string>) {
    forall i :: 0 <= i < |ts| ==> CutShape(ts[i], done)
  }

  lemma AllCutShapeAppend(a: seq<string>, b: seq<string>, done: seq<string>)
    requires AllCutShape(a, done) && AllCutShape(b, done)
    ensures AllCutShape(a + b, done)
  {
    forall i | 0 <= i < |a + b| ensures CutShape((a + b)[i], done) {
      if i >= |a| {
        assert (a + b)[i] == b[i - |a|];
      }
    }
  }

  /** A split into two or more parts means the separator occurs. */
  lemma SplitFinds(s: string, sep: string)
    requires |sep| > 0 && |Split(s, sep)| > 1
    ensures Contains(s, sep)
  {
    var j := NextSep(s, sep, 0);
    assert FoundAt(s, sep, j);
  }

  lemma {:induction false} PayloadsSignAndPiece(parts: seq<string>, sign: string)
    requires |parts| > 0
    ensures Payloads(SignAndPiece(parts, sign)[1..]) == Join(parts, sign)
    decreases |parts|
  {
    var r := SignAndPiece(parts, sign);
    var rest := SignAndPiece(parts[1..], sign);
    assert r == ["*" + sign, "?" + parts[0]] + rest;
    assert r[1..] == ["?" + parts[0]] + rest;
    PayloadsAppend(["?" + parts[0]], rest);
    assert Payloads(["?" + parts[0]]) == parts[0] by {
      assert Payload("?" + parts[0]) == parts[0];
    }
    if |parts| == 1 {
      assert rest == [];
    } else {
      PayloadsSignAndPiece(parts[1..], sign);
      assert rest == [rest[0]] + rest[1..];
      PayloadsAppend([rest[0]], rest[1..]);
      assert Payload(rest[0]) == sign by {
        assert rest[0] == "*" + sign;
      }
      assert Payloads([rest[0]]) == sign;
    }
  }

  lemma {:induction false} PayloadsDropEmpty(ts: seq<string>)
    ensures Payloads(DropEmpty(ts)) == Payloads(ts)
    decreases |ts|
  {
    if |ts| > 0 {
      PayloadsDropEmpty(ts[1..]);
      var h := if ts[0] == "?" then [] else [ts[0]];
      PayloadsAppend(h, DropEmpty(ts[1..]));
      if ts[0] == "?" {
        assert Payload(ts[0]) == [];
      }
    }
  }

  /** The sign token a cut emits names a sign that holds no sign cut before it. */
  lemma CutSignShape(p: string, done: seq<string>, sign: string)
    requires |sign| > 0 && Contains(p, sign)
    requires forall k :: 0 <= k < |done| ==> !Contains(p, done[k])
    ensures CutShape("*" + sign, done + [sign])
  {
    var d := done + [sign];
    assert ("*" + sign)[1..] == d[|done|];
    forall j | 0 <= j < |done| ensures !Contains(d[|done|], d[j]) {
      if Contains(sign, done[j]) {
        ContainsTrans(p, sign, done[j]);
      }
    }
  }

  /** A non-empty piece of a cut is an unresolved fragment of the right shape. */
  lemma CutPieceShape(p: string, done: seq<string>, sign: string, piece: string)
    requires |sign| > 0 && NoWhitespace(p) && piece in Split(p, sign) && piece != ""
    requires forall k :: 0 <= k < |done| ==> !Contains(p, done[k])
    ensures CutShape("?" + piece, done + [sign])
  {
    SplitPieces(p, sign);
    var d := done + [sign];
    var t := "?" + piece;
    assert t[1..] == piece;
    ContainsNoWhitespace(p, piece);
    forall k | 0 <= k < |d| ensures !Contains(piece, d[k]) {
      if k < |done| && Contains(piece, done[k]) {
        ContainsTrans(p, piece, done[k]);
      }
    }
  }

  /** Read off `SignAndPiece(parts, sign)[1..]`: pieces at even, signs at odd positions. */
  lemma SignAndPieceTail(parts: seq<string>, sign: string, m: nat)
    requires m + 1 < |SignAndPiece(parts, sign)|
    ensures m % 2 == 1 ==> SignAndPiece(parts, sign)[m + 1] == "*" + sign && |parts| > 1
    ensures m % 2 == 0 ==> m / 2 < |parts| && SignAndPiece(parts, sign)[m + 1] == "?" + parts[m / 2]
  {
    var n := (m + 1) / 2;
    if m % 2 == 1 {
      assert m + 1 == 2 * n;
      assert 1 <= n < |parts|;
      assert SignAndPiece(parts, sign)[2 * n] == "*" + sign;
    } else {
      assert m + 1 == 2 * (m / 2) + 1;
      assert SignAndPiece(parts, sign)[2 * (m / 2) + 1] == "?" + parts[m / 2];
    }
  }

  /**
   * Cutting one fragment at `sign` gives sign tokens for `sign` only where
   * the fragment holds it, and pieces that hold no whitespace and no sign
   * cut so far.
   */
  lemma CutFragmentShape(p: string, done: seq<string>, sign: string)
    requires |sign| > 0 && NoWhitespace(p)
    requires forall k :: 0 <= k < |done| ==> !Contains(p, done[k])
    ensures AllCutShape(CutFragment(p, sign), done + [sign])
  {
    var parts := Split(p, sign);
    var sp := SignAndPiece(parts, sign);
    forall i | 0 <= i < |CutFragment(p, sign)| ensures CutShape(CutFragment(p, sign)[i], done + [sign]) {
      var t := CutFragment(p, sign)[i];
      assert t != "?" && t in sp[1..];
      var m :| 0 <= m < |sp[1..]| && sp[1..][m] == t;
      assert t == sp[m + 1];
      SignAndPieceTail(parts, sign, m);
      if m % 2 == 1 {
        SplitFinds(p, sign);
        CutSignShape(p, done, sign);
      } else {
        CutPieceShape(p, done, sign, parts[m / 2]);
      }
    }
  }

  /** The payloads of a cut fragment, joined, are the fragment again. */
  lemma CutFragmentPayloads(p: string, sign: string)
    requires |sign| > 0
    ensures Payloads(CutFragment(p, sign)) == p
  {
    var parts := Split(p, sign);
    PayloadsDropEmpty(SignAndPiece(parts, sign)[1..]);
    PayloadsSignAndPiece(parts, sign);
    SplitJoin(p, sign);
  }

  /** One step of the `reduce` keeps the shape, with `sign` added to the signs cut. */
  lemma {:induction false} CutAllShape(ts: seq<string>, done: seq<string>, sign: string)
    requires |sign| > 0 && AllCutShape(ts, done)
    ensures AllCutShape(CutAll(ts, sign), done + [sign])
    ensures Payloads(CutAll(ts, sign)) == Payloads(ts)
    decreases |ts|
  {
    if |ts| > 0 {
      var d := done + [sign];
      CutAllShape(ts[1..], done, sign);
      var t := ts[0];
      assert CutShape(t, done);
      var h := if IsUnresolved(t) then CutFragment(t[1..], sign) else [t];
      if IsUnresolved(t) {
        CutFragmentShape(t[1..], done, sign);
        CutFragmentPayloads(t[1..], sign);
      } else {
        var k :| 0 <= k < |done| && t[1..] == done[k] && Unshadowed(done, k);
        assert d[k] == done[k];
        assert Unshadowed(d, k) by {
          assert forall j :: 0 <= j < k ==> d[j] == done[j];
        }
        assert CutShape(t, d);
      }
      AllCutShapeAppend(h, CutAll(ts[1..], sign), d);
      PayloadsAppend(h, CutAll(ts[1..], sign));
    }
  }

  /** The whole `reduce` keeps the shape, with all of `signs` cut. */
  lemma {:induction false} CutEachShape(ts: seq<string>, done: seq<string>, signs: seq<string>)
    requires ValidSigns(signs) && AllCutShape(ts, done)
    ensures AllCutShape(CutEach(ts, signs), done + signs)
    ensures Payloads(CutEach(ts, signs)) == Payloads(ts)
    decreases |signs|
  {
    if |signs| == 0 {
      assert done + signs == done;
    } else {
      CutAllShape(ts, done, signs[0]);
      assert ValidSigns(signs[1..]) by {
        forall k | 0 <= k < |signs[1..]| ensures |signs[1..][k]| > 0 && NoWhitespace(signs[1..][k]) {
          assert signs[1..][k] == signs[k + 1];
        }
      }
      CutEachShape(CutAll(ts, signs[0]), done + [signs[0]], signs[1..]);
      assert done + [signs[0]] + signs[1..] == done + signs;
    }
  }

  lemma {:induction false} MarkShape(pieces: seq<string>)
    requires forall i :: 0 <= i < |pieces| ==> NoWhitespace(pieces[i])
    ensures AllCutShape(Mark(pieces), [])
    ensures Payloads(Mark(pieces)) == Concat(pieces)
    decreases |pieces|
  {
    var r := Mark(pieces);
    forall i | 0 <= i < |r| ensures CutShape(r[i], []) {
      assert r[i][1..] == pieces[i];
    }
    if |pieces| > 0 {
      MarkShape(pieces[1..]);
      assert r == [r[0]] + Mark(pieces[1..]);
      PayloadsAppend([r[0]], Mark(pieces[1..]));
      assert Payload(r[0]) == pieces[0];
    }
  }

  // ---------------------------------------------------------------------------
  // The tokens `tokenize` returns

  /** `m` followed by `+` or `-` and an integer, where `m` is a mantissa ending in `e` or `E`. */
  predicate ExponentLiteral(x: string) {
    exists k :: 0 < k < |x| - 1 && (x[k] == '+' || x[k] == '-') && IsMantissaE("?" + x[..k]) && IsInteger(x[k + 1..])
  }

  /**
   * A token of `tokenize`: a sign token for a sign of the list that holds no
   * earlier sign, or a `#` token whose text holds no whitespace, is not
   * empty, and either holds no sign at all or is an exponent literal.
   */
  predicate TokenShape(t: string, signs: seq<string>) {
    && |t| > 1
    && (t[0] == '*' || t[0] == '#')
    && (t[0] == '*' ==> exists k :: 0 <= k < |signs| && t[1..] == signs[k] && Unshadowed(signs, k))
    && (t[0] == '#' ==>
          && NoWhitespace(t[1..])
          && (ExponentLiteral(t[1..]) || forall k :: 0 <= k < |signs| ==> !Contains(t[1..], signs[k])))
  }

  predicate AllTokenShape(ts: seq<string>, signs: seq<string>) {
    forall i :: 0 <= i < |ts| ==> TokenShape(ts[i], signs)
  }

  lemma AllTokenShapeCons(h: string, ts: seq<string>, signs: seq<string>)
    requires TokenShape(h, signs) && AllTokenShape(ts, signs)
    ensures AllTokenShape([h] + ts, signs)
  {
    forall i | 0 <= i < |[h] + ts| ensures TokenShape(([h] + ts)[i], signs) {
      if i > 0 {
        assert ([h] + ts)[i] == ts[i - 1];
      }
    }
  }

  /** The glued text of a mantissa, a sign and an integer is an exponent literal. */
  lemma MergedLiteral(a: string, b: string, c: string)
    requires IsMantissaE(a) && IsPlusMinus(b) && IsIntegerFragment(c)
    ensures ExponentLiteral(a[1..] + b[1..] + c[1..])
  {
    var x := a[1..] + b[1..] + c[1..];
    var k := |a[1..]|;
    assert x[k] == b[1];
    assert x[..k] == a[1..] && "?" + x[..k] == a;
    assert x[k + 1..] == c[1..];
  }

  lemma MergedNoWhitespace(a: string, b: string, c: string)
    requires IsPlusMinus(b) && NoWhitespace(a) && NoWhitespace(c)
    ensures NoWhitespace(a + b[1..] + c)
  {
    var x := a + b[1..] + c;
    var k := |a|;
    forall i | 0 <= i < |x| ensures !IsWhitespace(x[i]) {
      if i < k {
        assert x[i] == a[i];
      } else if i > k {
        assert x[i] == c[i - k - 1];
      } else {
        assert x[i] == b[1];
      }
    }
  }

  lemma MergedShape(a: string, b: string, c: string, signs: seq<string>)
    requires IsMantissaE(a) && IsPlusMinus(b) && IsIntegerFragment(c)
    requires NoWhitespace(a[1..]) && NoWhitespace(c[1..])
    ensures TokenShape("#" + a[1..] + b[1..] + c[1..], signs)
    ensures Payload("#" + a[1..] + b[1..] + c[1..]) == Payload(a) + Payload(b) + Payload(c)
  {
    var t := "#" + a[1..] + b[1..] + c[1..];
    var x := a[1..] + b[1..] + c[1..];
    assert t == "#" + x && t[1..] == x;
    MergedLiteral(a, b, c);
    MergedNoWhitespace(a[1..], b, c[1..]);
  }

  lemma PayloadsTriple(w: seq<string>)
    requires |w| == 3
    ensures Payloads(w) == Payload(w[0]) + Payload(w[1]) + Payload(w[2])
  {
    assert w[1..][1..] == [w[2]] && w[1..][1..][1..] == [];
    assert Payloads(w[1..][1..]) == Payload(w[2]);
    assert Payloads(w[1..]) == Payload(w[1]) + Payload(w[2]);
  }

  /** A merged triple gives a `tokenize` token with the three payloads. */
  lemma MergeHeadTriple(ts: seq<string>, signs: seq<string>)
    requires |signs| > 0 && MergesAt(ts, 0) && CutShape(ts[0], signs) && CutShape(ts[2], signs)
    ensures TokenShape(MergeStep(ts), signs)
    ensures Payload(MergeStep(ts)) == Payloads(ts[..3])
  {
    assert CutShape(ts[0], signs) && CutShape(ts[2], signs);
    assert NoWhitespace(ts[0][1..]) && NoWhitespace(ts[2][1..]);
    MergedShape(ts[0], ts[1], ts[2], signs);
    assert MergeStep(ts) == "#" + ts[0][1..] + ts[1][1..] + ts[2][1..];
    PayloadsTriple(ts[..3]);
  }

  /** Any other token gives a `tokenize` token with its own payload. */
  lemma MergeHeadSingle(ts: seq<string>, signs: seq<string>)
    requires |signs| > 0 && |ts| > 0 && !MergesAt(ts, 0) && CutShape(ts[0], signs)
    ensures TokenShape(MergeStep(ts), signs)
    ensures Payload(MergeStep(ts)) == Payloads(ts[..1])
  {
    var h := MergeStep(ts);
    assert ts[..1][1..] == [];
    if IsUnresolved(ts[0]) {
      assert h[1..] == ts[0][1..];
    }
  }

  /**
   * The exponent fixup turns a well-cut token list into `tokenize` tokens
   * and keeps the payloads.
   */
  lemma {:induction false} MergeShape(ts: seq<string>, signs: seq<string>)
    requires |signs| > 0 && AllCutShape(ts, signs)
    ensures AllTokenShape(MergeExponents(ts), signs)
    ensures Payloads(MergeExponents(ts)) == Payloads(ts)
    decreases |ts|
  {
    if |ts| > 0 {
      var n := MergeWidth(ts);
      assert AllCutShape(ts[n..], signs) by {
        forall i | 0 <= i < |ts[n..]| ensures CutShape(ts[n..][i], signs) {
          assert ts[n..][i] == ts[i + n];
        }
      }
      MergeShape(ts[n..], signs);
      assert CutShape(ts[0], signs);
      if MergesAt(ts, 0) {
        assert CutShape(ts[2], signs);
        MergeHeadTriple(ts, signs);
      } else {
        MergeHeadSingle(ts, signs);
      }
      var h := MergeStep(ts);
      var rest := MergeExponents(ts[n..]);
      AllTokenShapeCons(h, rest, signs);
      PayloadsAppend([h], rest);
      assert ts == ts[..n] + ts[n..];
      PayloadsAppend(ts[..n], ts[n..]);
      assert Payloads([h]) == Payload(h);
    }
  }

  lemma IntegerEndsInDigit(s: string)
    requires IsInteger(s)
    ensures |s| > 0 && IsDigit(s[|s| - 1])
  {
    if |s| > 1 {
      assert s[|s| - 1] == s[1..][|s| - 2];
    }
  }

  /**
   * Two triples the fixup could merge never overlap: the middle of a triple
   * is a sign fragment, and its last fragment ends in a digit, while a
   * triple starts with an unresolved fragment ending in `e` or `E`.
   */
  lemma NoOverlap(ts: seq<string>, j: nat, i: nat)
    requires MergesAt(ts, j) && MergesAt(ts, i) && j < i
    ensures j + 3 <= i
  {
    if i == j + 2 {
      IntegerEndsInDigit(ts[i][1..]);
    }
  }

  /** Every triple of the list that the fixup pattern matches comes out as one merged number token. */
  lemma {:induction false} EveryTripleMerged(ts: seq<string>, i: nat)
    requires MergesAt(ts, i)
    ensures "#" + ts[i][1..] + ts[i + 1][1..] + ts[i + 2][1..] in MergeExponents(ts)
    decreases |ts|
  {
    var n := MergeWidth(ts);
    assert MergeExponents(ts) == [MergeStep(ts)] + MergeExponents(ts[n..]);
    if i == 0 {
      assert MergeExponents(ts)[0] == MergeStep(ts);
    } else {
      if MergesAt(ts, 0) {
        NoOverlap(ts, 0, i);
      }
      var rest := ts[n..];
      assert rest[i - n] == ts[i] && rest[i - n + 1] == ts[i + 1] && rest[i - n + 2] == ts[i + 2];
      assert MergesAt(rest, i - n);
      EveryTripleMerged(rest, i - n);
    }
  }

  /**
   * `tokenize`, for a non-empty list of signs, returns tokens of the shape
   * above, and the tokens' texts, joined, are the code with its whitespace
   * deleted.
   */
  lemma TokenizeSpec(signs: seq<string>, code: string)
    requires ValidSigns(signs) && |signs| > 0
    ensures AllTokenShape(TokenizeWith(signs, code), signs)
    ensures Payloads(TokenizeWith(signs, code)) == DeleteWhitespace(code)
  {
    var pieces := SplitWhitespace(code);
    MarkShape(pieces);
    CutEachShape(Mark(pieces), [], signs);
    assert [] + signs == signs;
    MergeShape(CutEach(Mark(pieces), signs), signs);
  }

  /** Every token is a sign of the list or a number; none is left unclassified. */
  lemma TokenizeClassify(signs: seq<string>, code: string, i: nat)
    requires ValidSigns(signs) && |signs| > 0 && i < |TokenizeWith(signs, code)|
    ensures Classify(TokenizeWith(signs, code)[i]) != OtherToken
    ensures Classify(TokenizeWith(signs, code)[i]).SignToken? ==> Classify(TokenizeWith(signs, code)[i]).sign in signs
  {
    TokenizeSpec(signs, code);
    assert TokenShape(TokenizeWith(signs, code)[i], signs);
  }

  /**
   * A sign that holds an earlier sign of the list never comes out as a sign
   * token: the earlier sign has already cut every fragment it could occur in.
   */
  lemma ShadowedNeverEmitted(signs: seq<string>, code: string, j: nat, k: nat)
    requires ValidSigns(signs) && NoDup(signs)
    requires j < k < |signs| && Contains(signs[k], signs[j])
    ensures "*" + signs[k] !in TokenizeWith(signs, code)
  {
    TokenizeSpec(signs, code);
  }

  // ---------------------------------------------------------------------------
  // The decimal branch of the fixup and an exponent example

  /** The fragments the fixup sees, once every sign has been cut. */
  function CutFragments(signs: seq<string>, code: string): seq<string>
    requires ValidSigns(signs)
  {
    CutEach(Mark(SplitWhitespace(code)), signs)
  }

  /** A fragment free of the sign `.` holds no `.` character. */
  lemma NoDotFragment(t: string)
    requires !Contains(t, ".")
    ensures '.' !in t
  {
    if '.' in t {
      var p :| 0 <= p < |t| && t[p] == '.';
      assert t[p..p + 1] == ".";
      assert FoundAt(t, ".", p);
    }
  }

  /**
   * When `.` is one of the signs it is cut out before the fixup runs, so a
   * fragment the fixup merges never holds a `.`: its mantissa is a plain
   * integer and the decimal alternatives of the mantissa pattern never apply.
   */
  lemma DecimalBranchDead(signs: seq<string>, code: string, i: nat)
    requires ValidSigns(signs) && "." in signs
    requires MergesAt(CutFragments(signs, code), i)
    ensures var t := CutFragments(signs, code)[i];
            '.' !in t && IsInteger(t[1..|t| - 1])
  {
    var pieces := SplitWhitespace(code);
    MarkShape(pieces);
    CutEachShape(Mark(pieces), [], signs);
    assert [] + signs == signs;
    DotFreeMantissa(CutFragments(signs, code)[i], signs);
  }

  /** A cut fragment that looks like a mantissa followed by `e` has no `.` once `.` has been cut. */
  lemma DotFreeMantissa(t: string, signs: seq<string>)
    requires CutShape(t, signs) && "." in signs && IsMantissaE(t)
    ensures '.' !in t && IsInteger(t[1..|t| - 1])
  {
    var k :| 0 <= k < |signs| && signs[k] == ".";
    NoDotFragment(t[1..]);
    var m := t[1..|t| - 1];
    assert forall p :: 0 <= p < |m| ==> m[p] == t[1..][p];
    assert '.' !in m;
  }

  /** `1e+5` with `+` as the only sign: cut at `+`, then merged back into one number token. */
  lemma ExponentExample()
    ensures TokenizeWith(["+"], "1e+5") == ["#1e+5"]
  {
    ExponentMarked();
    ExponentCut();
    assert ValidSigns(["+"]) && ["+"][0] == "+" && ["+"][1..] == [];
    assert CutEach(["?1e+5"], ["+"]) == ["?1e", "*+", "?5"];
    ExponentMerge();
  }

  lemma ExponentMarked()
    ensures Mark(SplitWhitespace("1e+5")) == ["?1e+5"]
  {
    assert NoWhitespace("1e+5");
    SplitWhitespaceWord("1e+5");
    var marked := Mark(["1e+5"]);
    assert |marked| == 1 && marked[0] == "?" + "1e+5" == "?1e+5";
  }

  /** A text without whitespace is one piece. */
  lemma {:induction false} SplitWhitespaceWord(s: string)
    requires NoWhitespace(s)
    ensures SplitWhitespace(s) == [s]
  {
    if |s| > 0 {
      assert NoWhitespace(s[1..]) by {
        forall i | 0 <= i < |s[1..]| ensures !IsWhitespace(s[1..][i]) {
          assert s[1..][i] == s[i + 1];
        }
      }
      SplitWhitespaceWord(s[1..]);
      assert !IsWhitespace(s[0]);
      assert [s[0]] + s[1..] == s;
    }
  }

  lemma ExponentSplit()
    ensures Split("1e+5", "+") == ["1e", "5"]
  {
    var s := "1e+5";
    assert s[0..1] == "1" && s[1..2] == "e" && s[2..3] == "+" && s[3..4] == "5";
    assert FoundAt(s, "+", 2) && !FoundAt(s, "+", 0) && !FoundAt(s, "+", 1);
    assert NextSep(s, "+", 1) == 2;
    assert NextSep(s, "+", 0) == 2;
    assert NextSep(s, "+", 3) == 4;
    assert s[3..] == "5" && s[0..2] == "1e";
    assert SplitFrom(s, "+", 3) == ["5"];
  }

  lemma ExponentCut()
    ensures CutAll(["?1e+5"], "+") == ["?1e", "*+", "?5"]
  {
    ExponentFragment();
    assert "?1e+5"[1..] == "1e+5";
    assert ["?1e+5"][1..] == [];
  }

  lemma ExponentFragment()
    ensures CutFragment("1e+5", "+") == ["?1e", "*+", "?5"]
  {
    ExponentSplit();
    var cut := ["*+", "?1e", "*+", "?5"];
    var r := SignAndPiece(["1e", "5"], "+");
    assert |r| == 4 && r[0] == "*+" && r[2] == "*+";
    assert r[1] == "?" + "1e" == "?1e" && r[3] == "?" + "5" == "?5";
    assert r == cut;
    assert cut[1..] == ["?1e", "*+", "?5"];
    assert DropEmpty(["?1e", "*+", "?5"]) == ["?1e", "*+", "?5"];
  }

  lemma ExponentMerge()
    ensures MergeExponents(["?1e", "*+", "?5"]) == ["#1e+5"]
  {
    var ts := ["?1e", "*+", "?5"];
    assert IndexOf("1", '.') == -1;
    assert IsMantissaE("?1e") && IsPlusMinus("*+") && IsIntegerFragment("?5");
    assert MergesAt(ts, 0) && MergeWidth(ts) == 3 && ts[3..] == [];
    assert MergeStep(ts) == "#1e+5";
  }

}
