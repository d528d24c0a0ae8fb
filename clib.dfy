/**
 * The C string helpers the shell calls. Some are libc (strtok, strncmp,
 * strchr, isspace, atoi, snprintf); the others (stringtok, containschars,
 * is_integer, startwith, strexit, strcondition) are the repository's own,
 * and their bodies are not part of this model: each is given here the
 * meaning its call sites rely on, and README.md lists these assumptions.
 *
 * A C string is modelled by the characters before its terminating NUL;
 * CharAt reads '\0' at (and past) the end, as the C code does when it
 * looks one character beyond a prefix.
 */
module CLib {
  import opened Wrappers

  function CharAt(s: string, i: nat): char {
    if i < |s| then s[i] else '\0'
  }

  /** isspace in the C locale: space, \t, \n, \v, \f, \r. */
  predicate IsSpace(c: char) {
    c == ' ' || c == '\t' || c == '\n' || c == '\r' || c as int == 11 || c as int == 12
  }

  /** startwith(s, p), and strstr(s, p) == s, and strncmp(s, p, |p|) == 0. */
  predicate StartsWith(s: string, prefix: string) {
    |prefix| <= |s| && s[..|prefix|] == prefix
  }

  /** containschars(s, chars) == 1: some character of `chars` occurs in `s`. */
  predicate ContainsChars(s: string, chars: string) {
    exists i :: 0 <= i < |s| && s[i] in chars
  }

  /** strchr(s, c): the index of the first occurrence of `c`, if any. */
  function IndexOf(s: string, c: char): (r: Option<nat>)
    ensures r.Some? ==> r.value < |s| && s[r.value] == c
    ensures r.Some? ==> forall i :: 0 <= i < r.value ==> s[i] != c
    ensures r.None? ==> forall i :: 0 <= i < |s| ==> s[i] != c
  {
    if s == [] then None
    else if s[0] == c then Some(0)
    else match IndexOf(s[1..], c)
      case None => None
      case Some(i) => Some(i + 1)
  }

  /**
   * strncmp(a, b, n) == 0: the two strings agree on their first n
   * characters, where a position past the end of a string reads as its NUL.
   */
  predicate StrNEqual(a: string, b: string, n: nat) {
    forall i :: 0 <= i < n ==> CharAt(a, i) == CharAt(b, i)
  }

  /** For a NUL-free prefix, strncmp's agreement is plain prefix equality. */
  lemma {:induction false} StrNEqualPrefix(a: string, b: string, n: nat)
    requires n <= |a|
    requires forall i :: 0 <= i < n ==> a[i] != '\0'
    ensures StrNEqual(a, b, n) <==> n <= |b| && a[..n] == b[..n]
  {
    if |b| < n {
      assert CharAt(a, |b|) != CharAt(b, |b|);
    }
    if StrNEqual(a, b, n) && n <= |b| {
      forall i | 0 <= i < n ensures a[i] == b[i] {
        assert CharAt(a, i) == CharAt(b, i);
      }
      assert a[..n] == b[..n];
    }
    if n <= |b| && a[..n] == b[..n] {
      forall i | 0 <= i < n ensures CharAt(a, i) == CharAt(b, i) {
        assert a[..n][i] == b[..n][i];
      }
    }
  }

  // ---------------------------------------------------------------------
  // strtok (and stringtok, assumed to be strtok sharing its hidden state)

  /** A token: a non-empty run of non-delimiter characters. */
  predicate IsToken(t: string, delims: string) {
    |t| > 0 && forall i :: 0 <= i < |t| ==> t[i] !in delims
  }

  /** Length of the longest prefix of `s` holding no delimiter. */
  function RunLength(s: string, delims: string): (n: nat)
    ensures n <= |s|
    ensures forall i :: 0 <= i < n ==> s[i] !in delims
    ensures n < |s| ==> s[n] in delims
  {
    if s == [] || s[0] in delims then 0 else 1 + RunLength(s[1..], delims)
  }

  /**
   * The tokens that successive strtok calls return on `s`: skip delimiters,
   * take the maximal run of non-delimiters, repeat until the end.
   */
  function Tokens(s: string, delims: string): (ts: seq<string>)
    ensures forall k :: 0 <= k < |ts| ==> IsToken(ts[k], delims)
    decreases |s|
  {
    if s == [] then []
    else if s[0] in delims then Tokens(s[1..], delims)
    else
      var n := RunLength(s, delims);
      [s[..n]] + Tokens(s[n..], delims)
  }

  /** A string holding no delimiter at all is one token, or none when empty. */
  lemma {:induction false} TokensOfToken(t: string, delims: string)
    requires forall i :: 0 <= i < |t| ==> t[i] !in delims
    ensures Tokens(t, delims) == if t == [] then [] else [t]
  {
    if t != [] {
      assert RunLength(t, delims) == |t|;
      assert t[..|t|] == t;
      assert t[|t|..] == [];
    }
  }

  /** A run of delimiters yields no token. */
  lemma {:induction false} TokensOfDelimiters(s: string, delims: string)
    requires forall i :: 0 <= i < |s| ==> s[i] in delims
    ensures Tokens(s, delims) == []
    decreases |s|
  {
    if s != [] {
      TokensOfDelimiters(s[1..], delims);
    }
  }

  /** A run that stops inside `a` is not extended by what follows `a`. */
  lemma {:induction false} RunLengthAppend(a: string, b: string, delims: string)
    requires RunLength(a, delims) < |a|
    ensures RunLength(a + b, delims) == RunLength(a, delims)
    decreases |a|
  {
    if a[0] !in delims {
      assert (a + b)[1..] == a[1..] + b;
      RunLengthAppend(a[1..], b, delims);
    }
  }

  /**
   * Cutting a string just after a delimiter splits its tokens: strtok never
   * joins characters across a delimiter.
   */
  lemma {:induction false} TokensAppend(a: string, b: string, delims: string)
    requires a == [] || a[|a| - 1] in delims
    ensures Tokens(a + b, delims) == Tokens(a, delims) + Tokens(b, delims)
    decreases |a|
  {
    if a == [] {
      assert a + b == b;
    } else if a[0] in delims {
      assert (a + b)[1..] == a[1..] + b;
      TokensAppend(a[1..], b, delims);
    } else {
      var n := RunLength(a, delims);
      RunLengthAppend(a, b, delims);
      assert (a + b)[..n] == a[..n];
      assert (a + b)[n..] == a[n..] + b;
      TokensAppend(a[n..], b, delims);
    }
  }

  /** A token followed by a delimiter and more text. */
  lemma {:induction false} TokenThenRest(t: string, c: char, rest: string, delims: string)
    requires IsToken(t, delims) && c in delims
    ensures Tokens(t + [c] + rest, delims) == [t] + Tokens(rest, delims)
  {
    var a := t + [c];
    TokensAppend(a, rest, delims);
    RunLengthWhole(t, [c], delims);
    assert a[..|t|] == t && a[|t|..] == [c];
    TokensOfDelimiters([c], delims);
    assert Tokens(a, delims) == [t] + Tokens([c], delims);
  }

  /** A token that reaches the end of `a` stops at the delimiters after it. */
  lemma {:induction false} RunLengthWhole(a: string, d: string, delims: string)
    requires forall i :: 0 <= i < |a| ==> a[i] !in delims
    requires d == [] || d[0] in delims
    ensures RunLength(a + d, delims) == |a|
    decreases |a|
  {
    if a == [] {
      assert a + d == d;
    } else {
      assert (a + d)[1..] == a[1..] + d;
      RunLengthWhole(a[1..], d, delims);
    }
  }

  /** Trailing delimiters add no token. */
  lemma {:induction false} TokensTrailingDelimiters(a: string, d: string, delims: string)
    requires forall i :: 0 <= i < |d| ==> d[i] in delims
    ensures Tokens(a + d, delims) == Tokens(a, delims)
    decreases |a|
  {
    if a == [] {
      assert a + d == d;
      TokensOfDelimiters(d, delims);
    } else if a[0] in delims {
      assert (a + d)[1..] == a[1..] + d;
      TokensTrailingDelimiters(a[1..], d, delims);
    } else {
      var n := RunLength(a, delims);
      if n < |a| {
        RunLengthAppend(a, d, delims);
        assert (a + d)[..n] == a[..n];
        assert (a + d)[n..] == a[n..] + d;
        TokensTrailingDelimiters(a[n..], d, delims);
      } else {
        RunLengthWhole(a, d, delims);
        assert (a + d)[..n] == a && a[..n] == a;
        assert (a + d)[n..] == d;
        TokensOfDelimiters(d, delims);
        assert a[n..] == [];
      }
    }
  }

  /**
   * Text, then a non-empty run of delimiters, then more text: the tokens of
   * the two sides, in order. Nothing is joined across the run.
   */
  lemma {:induction false} TokensAroundDelimiters(a: string, d: string, b: string, delims: string)
    requires d != [] && forall i :: 0 <= i < |d| ==> d[i] in delims
    ensures Tokens(a + d + b, delims) == Tokens(a, delims) + Tokens(b, delims)
  {
    TokensAppend(a + d, b, delims);
    TokensTrailingDelimiters(a, d, delims);
  }

  /** The first position at or after `i` that holds no delimiter. */
  function SkipDelims(s: string, i: nat, delims: string): (j: nat)
    requires i <= |s|
    ensures i <= j <= |s|
    ensures forall k :: i <= k < j ==> s[k] in delims
    ensures j < |s| ==> s[j] !in delims
    decreases |s| - i
  {
    if i < |s| && s[i] in delims then SkipDelims(s, i + 1, delims) else i
  }

  /**
   * One call of stringtok/strtok on the string `s` whose hidden saved
   * position is `pos`: the token it returns and the new saved position (just
   * past the delimiter that ended the token, or the end of `s`).
   */
  function StrTok(s: string, pos: nat, delims: string): (r: (Option<string>, nat))
    requires pos <= |s|
    ensures pos <= r.1 <= |s|
    ensures r.0.None? ==> r.1 == |s|
    ensures r.0.Some? ==> pos < r.1
  {
    var i := SkipDelims(s, pos, delims);
    if i == |s| then (None, |s|)
    else
      var n := RunLength(s[i..], delims);
      if i + n < |s| then (Some(s[i..i + n]), i + n + 1)
      else (Some(s[i..i + n]), i + n)
  }

  /**
   * Successive calls return Tokens: NULL when no token is left, otherwise
   * the first token, with the rest to come from the new position.
   */
  lemma {:induction false} StrTokTokens(s: string, pos: nat, delims: string)
    requires pos <= |s|
    ensures var r := StrTok(s, pos, delims);
      && (r.0.None? ==> Tokens(s[pos..], delims) == [])
      && (r.0.Some? ==> Tokens(s[pos..], delims) == [r.0.value] + Tokens(s[r.1..], delims))
  {
    var i := SkipDelims(s, pos, delims);
    SkipThenTokens(s, pos, i, delims);
    if i < |s| {
      var n := RunLength(s[i..], delims);
      assert s[i..][..n] == s[i..i + n];
      assert s[i..][n..] == s[i + n..];
      if i + n < |s| {
        assert s[i + n..][1..] == s[i + n + 1..];
      }
    }
  }

  /** Skipped delimiters contribute no token. */
  lemma {:induction false} SkipThenTokens(s: string, pos: nat, i: nat, delims: string)
    requires pos <= i <= |s|
    requires forall k :: pos <= k < i ==> s[k] in delims
    ensures Tokens(s[pos..], delims) == Tokens(s[i..], delims)
    decreases i - pos
  {
    if pos < i {
      assert s[pos..][1..] == s[pos + 1..];
      SkipThenTokens(s, pos + 1, i, delims);
    }
  }

  /**
   * The tokens still to come while a string is being cut: the one in hand,
   * if any, then those after the saved position.
   */
  function Pending(s: string, token: Option<string>, pos: nat, delims: string): seq<string>
    requires pos <= |s|
  {
    if token.Some? then [token.value] + Tokens(s[pos..], delims) else []
  }

  /** Moving the first pending element to the done side keeps the whole. */
  lemma {:induction false} ShiftFirst<T>(done: seq<T>, rest: seq<T>)
    requires rest != []
    ensures done + rest == (done + [rest[0]]) + rest[1..]
  {
    assert rest == [rest[0]] + rest[1..];
  }

  /**
   * The loops of strtok compute StrTok, so the token returned and those
   * still to come are the tokens of the text from `pos`.
   */
  method StringTok(s: string, pos: nat, delims: string) returns (token: Option<string>, next: nat)
    requires pos <= |s|
    ensures (token, next) == StrTok(s, pos, delims)
    ensures Pending(s, token, next, delims) == Tokens(s[pos..], delims)
  {
    var i := pos;
    while i < |s| && s[i] in delims
      invariant pos <= i <= |s|
      invariant forall k :: pos <= k < i ==> s[k] in delims
    {
      i := i + 1;
    }
    SkipDelimsIs(s, pos, delims, i);
    if i == |s| {
      StrTokTokens(s, pos, delims);
      return None, |s|;
    }
    var j := i + 1;
    while j < |s| && s[j] !in delims
      invariant i < j <= |s|
      invariant forall k :: i <= k < j ==> s[k] !in delims
    {
      j := j + 1;
    }
    RunLengthIs(s[i..], delims, j - i);
    token := Some(s[i..j]);
    if j < |s| {
      next := j + 1;
    } else {
      next := j;
    }
    StrTokTokens(s, pos, delims);
  }

  /** SkipDelims is the end of the run of delimiters from `pos`. */
  lemma SkipDelimsIs(s: string, pos: nat, delims: string, i: nat)
    requires pos <= i <= |s|
    requires forall k :: pos <= k < i ==> s[k] in delims
    requires i < |s| ==> s[i] !in delims
    ensures SkipDelims(s, pos, delims) == i
  {
  }

  /** RunLength is the length of the run of non-delimiters at the start. */
  lemma RunLengthIs(t: string, delims: string, n: nat)
    requires n <= |t|
    requires forall k :: 0 <= k < n ==> t[k] !in delims
    requires n < |t| ==> t[n] in delims
    ensures RunLength(t, delims) == n
  {
  }

  // ---------------------------------------------------------------------
  // Trimming

  /** `s` with its leading characters from `cs` removed. */
  function TrimLeft(s: string, cs: string): string {
    if s != [] && s[0] in cs then TrimLeft(s[1..], cs) else s
  }

  /** `s` with its trailing characters from `cs` removed. */
  function TrimRight(s: string, cs: string): string {
    if s != [] && s[|s| - 1] in cs then TrimRight(s[..|s| - 1], cs) else s
  }

  function Trim(s: string, cs: string): string {
    TrimRight(TrimLeft(s, cs), cs)
  }

  /** TrimLeft removes a prefix made of `cs` characters, and all of it. */
  lemma {:induction false} TrimLeftShape(s: string, cs: string)
    ensures |TrimLeft(s, cs)| <= |s| && TrimLeft(s, cs) == s[|s| - |TrimLeft(s, cs)|..]
    ensures forall i :: 0 <= i < |s| - |TrimLeft(s, cs)| ==> s[i] in cs
    ensures TrimLeft(s, cs) != [] ==> TrimLeft(s, cs)[0] !in cs
    decreases |s|
  {
    if s != [] && s[0] in cs {
      TrimLeftShape(s[1..], cs);
      var r := TrimLeft(s, cs);
      assert s[1..][|s| - 1 - |r|..] == s[|s| - |r|..];
    }
  }

  /** TrimRight removes a suffix made of `cs` characters, and all of it. */
  lemma {:induction false} TrimRightShape(s: string, cs: string)
    ensures |TrimRight(s, cs)| <= |s| && TrimRight(s, cs) == s[..|TrimRight(s, cs)|]
    ensures forall i :: |TrimRight(s, cs)| <= i < |s| ==> s[i] in cs
    ensures TrimRight(s, cs) != [] ==> TrimRight(s, cs)[|TrimRight(s, cs)| - 1] !in cs
    decreases |s|
  {
    if s != [] && s[|s| - 1] in cs {
      TrimRightShape(s[..|s| - 1], cs);
      var r := TrimRight(s, cs);
      assert s[..|s| - 1][..|r|] == s[..|r|];
    }
  }

  /** Leading characters from `cs` are skipped up to the first other one. */
  lemma {:induction false} TrimLeftSkips(pre: string, x: string, cs: string)
    requires forall i :: 0 <= i < |pre| ==> pre[i] in cs
    requires x != [] && x[0] !in cs
    ensures TrimLeft(pre + x, cs) == x
    decreases |pre|
  {
    if pre == [] {
      assert pre + x == x;
    } else {
      assert (pre + x)[1..] == pre[1..] + x;
      TrimLeftSkips(pre[1..], x, cs);
    }
  }

  /** Trailing characters from `cs` are dropped back to the last other one. */
  lemma {:induction false} TrimRightSkips(x: string, post: string, cs: string)
    requires forall i :: 0 <= i < |post| ==> post[i] in cs
    requires x != [] && x[|x| - 1] !in cs
    ensures TrimRight(x + post, cs) == x
    decreases |post|
  {
    if post == [] {
      assert x + post == x;
    } else {
      var shorter := post[..|post| - 1];
      assert (x + post)[..|x + post| - 1] == x + shorter;
      TrimRightSkips(x, shorter, cs);
    }
  }

  /** Trimming recovers text padded on both sides. */
  lemma {:induction false} TrimSurrounded(pre: string, x: string, post: string, cs: string)
    requires forall i :: 0 <= i < |pre| ==> pre[i] in cs
    requires forall i :: 0 <= i < |post| ==> post[i] in cs
    requires x != [] && x[0] !in cs && x[|x| - 1] !in cs
    ensures Trim(pre + x + post, cs) == x
  {
    assert pre + x + post == pre + (x + post);
    TrimLeftSkips(pre, x + post, cs);
    TrimRightSkips(x, post, cs);
  }

  // ---------------------------------------------------------------------
  // Numbers: is_integer, atoi and the %d conversion

  predicate IsDigit(c: char) {
    '0' as int <= c as int <= '9' as int
  }

  predicate IsDigits(s: string) {
    |s| > 0 && forall i :: 0 <= i < |s| ==> IsDigit(s[i])
  }

  /** is_integer(s): an optional sign followed by one or more decimal digits. */
  predicate IsInteger(s: string) {
    if |s| > 0 && (s[0] == '-' || s[0] == '+') then IsDigits(s[1..]) else IsDigits(s)
  }

  function DigitsValue(s: string): nat
    requires forall i :: 0 <= i < |s| ==> IsDigit(s[i])
  {
    if s == [] then 0
    else
      var last := s[|s| - 1];
      assert IsDigit(last);
      DigitsValue(s[..|s| - 1]) * 10 + (last as int - '0' as int)
  }

  /** atoi on a string is_integer accepts (values beyond 32 bits are not modelled). */
  function Atoi(s: string): int
    requires IsInteger(s)
  {
    if s[0] == '-' then -(DigitsValue(s[1..]) as int)
    else if s[0] == '+' then DigitsValue(s[1..])
    else DigitsValue(s)
  }

  /** The %d conversion of a non-negative number. */
  function DecimalString(n: nat): (r: string)
    ensures IsDigits(r)
  {
    var d := [('0' as int + n % 10) as char];
    if n < 10 then d else DecimalString(n / 10) + d
  }

  /** is_integer accepts what %d prints, and atoi reads back the same number. */
  lemma {:induction false} DecimalRoundTrip(n: nat)
    ensures IsInteger(DecimalString(n)) && Atoi(DecimalString(n)) == n
    ensures IsInteger("-" + DecimalString(n)) && Atoi("-" + DecimalString(n)) == -(n as int)
  {
    DigitsValueOfDecimal(n);
    var s := DecimalString(n);
    assert ("-" + s)[0] == '-' && ("-" + s)[1..] == s;
  }

  lemma {:induction false} DigitsValueOfDecimal(n: nat)
    ensures DigitsValue(DecimalString(n)) == n
  {
    var d := [('0' as int + n % 10) as char];
    if n >= 10 {
      DigitsValueOfDecimal(n / 10);
      var s := DecimalString(n);
      assert s[..|s| - 1] == DecimalString(n / 10);
    }
  }

  /** snprintf into a buffer of `size` bytes keeps at most size - 1 characters. */
  function Truncate(s: string, size: nat): (r: string)
    requires size > 0
    ensures |r| < size && StartsWith(s, r)
    ensures |s| < size ==> r == s
  {
    if |s| < size then s else s[..size - 1]
  }
}
