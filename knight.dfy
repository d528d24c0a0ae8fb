/**
 * knight.c: the whitespace test, the tokenizer and the space-joining copy
 * that the executor and the built-ins use.
 */
module Knight {
  import opened Wrappers
  import opened CLib
  import opened Environment

  // ---------------------------------------------------------------------
  // isOnlyWhitespace

  /** No character of `s` is whitespace. */
  predicate NoWhitespace(s: string) {
    forall i :: 0 <= i < |s| ==> !IsSpace(s[i])
  }

  /** Every character of `s` is whitespace. */
  predicate AllWhitespace(s: string) {
    forall i :: 0 <= i < |s| ==> IsSpace(s[i])
  }

  /**
   * isOnlyWhitespace as written: 0 for NULL, 0 as soon as a whitespace
   * character is seen, 1 otherwise. It answers "holds no whitespace".
   */
  method IsOnlyWhitespace(str: Option<string>) returns (r: int)
    ensures r == if str.Some? && NoWhitespace(str.value) then 1 else 0
  {
    if str.None? {
      return 0;
    }
    var s := str.value;
    var i := 0;
    while i < |s|
      invariant 0 <= i <= |s|
      invariant forall j :: 0 <= j < i ==> !IsSpace(s[j])
    {
      if IsSpace(s[i]) {
        return 0;
      }
      i := i + 1;
    }
    return 1;
  }

  /** The test its documentation describes: 1 exactly for an all-whitespace string. */
  method IsOnlyWhitespaceIntended(str: Option<string>) returns (r: int)
    ensures r == if str.Some? && AllWhitespace(str.value) then 1 else 0
  {
    if str.None? {
      return 0;
    }
    var s := str.value;
    var i := 0;
    while i < |s|
      invariant 0 <= i <= |s|
      invariant forall j :: 0 <= j < i ==> IsSpace(s[j])
    {
      if !IsSpace(s[i]) {
        return 0;
      }
      i := i + 1;
    }
    return 1;
  }

  /**
   * The two answers agree only on the empty string: on every non-empty
   * string at most one of them holds, and " " and "a" separate them.
   */
  lemma {:induction false} WhitespaceTestInverted(s: string)
    requires s != []
    ensures !(NoWhitespace(s) && AllWhitespace(s))
    ensures AllWhitespace(" ") && !NoWhitespace(" ")
    ensures NoWhitespace("a") && !AllWhitespace("a")
  {
    assert IsSpace(" "[0]);
    assert !IsSpace("a"[0]);
    if NoWhitespace(s) {
      assert !IsSpace(s[0]);
    }
  }

  // ---------------------------------------------------------------------
  // tokenize

  /**
   * tokenize: the successive stringtok tokens of a copy of `str`, in order;
   * the NULL terminator is implicit. The input string is a value and so
   * cannot be changed.
   */
  method Tokenize(str: string, delims: string) returns (tokens: seq<string>)
    ensures tokens == Tokens(str, delims)
  {
    var copy := str;
    tokens := [];
    assert copy[0..] == copy;
    var token, pos := StringTok(copy, 0, delims);
    ghost var rest := Pending(copy, token, pos, delims);
    while token.Some?
      invariant pos <= |copy|
      invariant rest == Pending(copy, token, pos, delims)
      invariant Tokens(copy, delims) == tokens + rest
      decreases |copy| - pos, token.Some?
    {
      ShiftFirst(tokens, rest);
      tokens := tokens + [token.value];
      token, pos := StringTok(copy, pos, delims);
      rest := rest[1..];
    }
  }

  /** Input made only of delimiters (or empty) yields only the terminator. */
  lemma {:induction false} TokenizeDelimitersOnly(str: string, delims: string)
    requires forall i :: 0 <= i < |str| ==> str[i] in delims
    ensures Tokens(str, delims) == []
  {
    TokensOfDelimiters(str, delims);
  }

  // ---------------------------------------------------------------------
  // stringarraycpy

  /** The strings joined by single spaces, in order. */
  function JoinSpace(ts: seq<string>): (r: string)
    ensures ts != [] ==> |r| + 1 == TotalLength(ts)
    ensures ts == [] ==> r == []
  {
    if ts == [] then []
    else if |ts| == 1 then ts[0]
    else
      var rest := JoinSpace(ts[1..]);
      TotalLengthCons(ts);
      ts[0] + " " + rest
  }

  lemma {:induction false} TotalLengthCons(ts: seq<string>)
    requires ts != []
    ensures TotalLength(ts) == |ts[0]| + 1 + TotalLength(ts[1..])
    decreases |ts|
  {
    if |ts| > 1 {
      var init := ts[..|ts| - 1];
      TotalLengthCons(init);
      assert init[1..] == ts[1..][..|ts[1..]| - 1];
    } else {
      assert ts[..0] == [] && ts[1..] == [];
    }
  }

  lemma {:induction false} TotalLengthPrefix(ts: seq<string>, i: nat)
    requires i <= |ts|
    ensures TotalLength(ts[..i]) + (|ts| - i) <= TotalLength(ts)
    decreases |ts| - i
  {
    if i < |ts| {
      TotalLengthPrefix(ts, i + 1);
      assert ts[..i + 1][..i] == ts[..i];
    } else {
      assert ts[..i] == ts;
    }
  }

  /** Joining one more string appends a space and that string. */
  lemma {:induction false} JoinSpaceSnoc(ts: seq<string>, t: string)
    requires ts != []
    ensures JoinSpace(ts + [t]) == JoinSpace(ts) + " " + t
    decreases |ts|
  {
    if |ts| > 1 {
      JoinSpaceSnoc(ts[1..], t);
      assert (ts + [t])[1..] == ts[1..] + [t];
    } else {
      assert (ts + [t])[1..] == [t];
    }
  }

  /** The first i + 1 strings joined: the first i, a space, then string i. */
  lemma {:induction false} JoinSpacePrefix(ts: seq<string>, i: nat)
    requires i < |ts|
    ensures i == 0 ==> JoinSpace(ts[..i + 1]) == ts[0]
    ensures i > 0 ==> JoinSpace(ts[..i + 1]) == JoinSpace(ts[..i]) + " " + ts[i]
  {
    if i == 0 {
      assert ts[..1] == [ts[0]];
    } else {
      assert ts[..i + 1] == ts[..i] + [ts[i]];
      JoinSpaceSnoc(ts[..i], ts[i]);
    }
  }

  /** What stringarraycpy produces. */
  datatype JoinResult =
    | NullArray            // arr == NULL
    | Joined(text: string) // the filled buffer
    | EmptyOverrun         // empty array: the terminator is written to a 0-byte allocation

  /**
   * strcat(buffer, s) where the text so far ends at `at`: copies `s` and
   * the terminating NUL.
   */
  method CatAt(buffer: array<char>, at: nat, s: string) returns (next: nat)
    requires at + |s| < buffer.Length
    modifies buffer
    ensures next == at + |s|
    ensures buffer[..next] == old(buffer[..at]) + s
    ensures buffer[next] == '\0'
  {
    CopyAt(buffer, at, s);
    buffer[at + |s|] := '\0';
    assert buffer[..at + |s|] == buffer[..at] + buffer[at..at + |s|];
    next := at + |s|;
  }

  /**
   * stringarraycpy: NULL for NULL; otherwise the strings joined by single
   * spaces in a buffer of total_length + num_strings characters, which the
   * joined text and its terminator fill exactly.
   */
  method StringArrayCpy(arr: Option<seq<string>>) returns (result: JoinResult)
    ensures arr.None? ==> result == NullArray
    ensures arr == Some([]) ==> result == EmptyOverrun
    ensures arr.Some? && arr.value != [] ==> result == Joined(JoinSpace(arr.value))
  {
    if arr.None? {
      return NullArray;
    }
    var strings := arr.value;
    var size := 0;
    for i := 0 to |strings|
      invariant size == TotalLength(strings[..i])
    {
      assert strings[..i + 1][..i] == strings[..i];
      size := size + |strings[i]| + 1;
    }
    assert strings[..|strings|] == strings;
    if size == 0 {
      return EmptyOverrun;
    }
    var buffer := new char[size];
    buffer[0] := '\0';
    var position := FillJoined(buffer, strings);
    result := Joined(buffer[..position]);
  }

  /**
   * The copying loop of stringarraycpy: strcat each string, and a space
   * after every one but the last, into a buffer of exactly
   * total_length + num_strings characters.
   */
  method FillJoined(buffer: array<char>, strings: seq<string>) returns (position: nat)
    requires strings != [] && buffer.Length == TotalLength(strings)
    modifies buffer
    ensures position < buffer.Length && buffer[..position] == JoinSpace(strings)
  {
    position := 0;
    var n := |strings|;
    for i := 0 to n
      invariant position < buffer.Length
      invariant i == 0 ==> position == 0
      invariant 0 < i < n ==> buffer[..position] == JoinSpace(strings[..i]) + " "
      invariant i == n ==> buffer[..position] == JoinSpace(strings)
      invariant i < n ==> position == TotalLength(strings[..i])
    {
      TotalLengthPrefix(strings, i + 1);
      assert strings[..i + 1][..i] == strings[..i];
      position := CatAt(buffer, position, strings[i]);
      JoinSpacePrefix(strings, i);
      assert buffer[..position] == JoinSpace(strings[..i + 1]);
      if i < n - 1 {
        position := CatAt(buffer, position, " ");
      } else {
        assert strings[..i + 1] == strings;
      }
    }
  }

  // ---------------------------------------------------------------------
  // Split and join round trips

  /** Splitting the space-joined tokens on spaces gives them back. */
  lemma {:induction false} SplitJoin(ts: seq<string>)
    requires forall k :: 0 <= k < |ts| ==> IsToken(ts[k], " ")
    ensures Tokens(JoinSpace(ts), " ") == ts
    decreases |ts|
  {
    if |ts| == 1 {
      TokensOfToken(ts[0], " ");
    } else if |ts| > 1 {
      SplitJoin(ts[1..]);
      TokenThenRest(ts[0], ' ', JoinSpace(ts[1..]), " ");
      assert ts[0] + " " + JoinSpace(ts[1..]) == ts[0] + [' '] + JoinSpace(ts[1..]);
    }
  }

  /** Where the collapsing scan of Squeeze stands. */
  datatype ScanState = Start | InWord | Gap

  /**
   * `s` with leading and trailing spaces removed and every inner run of
   * spaces collapsed to one, scanning character by character.
   */
  function Squeeze(s: string, state: ScanState): string {
    if s == [] then []
    else if s[0] == ' ' then Squeeze(s[1..], if state == Start then Start else Gap)
    else (if state == Gap then " " else "") + [s[0]] + Squeeze(s[1..], InWord)
  }

  /**
   * Every space of a squeezed string sits between two non-space
   * characters: none leads, none trails, no two are adjacent. (A scan
   * resumed after a word may start with the one space it owes.)
   */
  predicate SpacesInner(r: string, mayLead: bool) {
    forall i :: 0 <= i < |r| && r[i] == ' ' ==> (0 < i || mayLead) && i + 1 < |r| && r[i + 1] != ' '
  }

  lemma {:induction false} SqueezeShape(s: string, state: ScanState)
    ensures SpacesInner(Squeeze(s, state), state != Start)
    decreases |s|
  {
    if s != [] {
      if s[0] == ' ' {
        SqueezeShape(s[1..], if state == Start then Start else Gap);
      } else {
        var rest := Squeeze(s[1..], InWord);
        SqueezeShape(s[1..], InWord);
        var p: string := if state == Gap then " " else "";
        var r := p + [s[0]] + rest;
        assert Squeeze(s, state) == r;
        forall i | 0 <= i < |r| && r[i] == ' '
          ensures (0 < i || state != Start) && i + 1 < |r| && r[i + 1] != ' '
        {
          if i >= |p| + 1 {
            assert r[i] == rest[i - |p| - 1];
            if i + 1 < |r| {
              assert r[i + 1] == rest[i - |p|];
            }
          } else {
            assert i == 0 && state == Gap;
            assert r[1] == s[0];
          }
        }
      }
    }
  }

  /** The non-space characters of `s`, in order. */
  function Unspaced(s: string): string {
    if s == [] then [] else (if s[0] == ' ' then [] else [s[0]]) + Unspaced(s[1..])
  }

  lemma {:induction false} UnspacedAppend(a: string, b: string)
    ensures Unspaced(a + b) == Unspaced(a) + Unspaced(b)
    decreases |a|
  {
    if a == [] {
      assert a + b == b;
    } else {
      var head: string := if a[0] == ' ' then [] else [a[0]];
      assert (a + b)[0] == a[0] && (a + b)[1..] == a[1..] + b;
      assert Unspaced(a + b) == head + Unspaced(a[1..] + b);
      UnspacedAppend(a[1..], b);
      AppendAssoc(head, Unspaced(a[1..]), Unspaced(b));
    }
  }

  /** Squeezing removes spaces only: every other character is kept, in order. */
  lemma {:induction false} SqueezeKeepsText(s: string, state: ScanState)
    ensures Unspaced(Squeeze(s, state)) == Unspaced(s)
    decreases |s|
  {
    if s != [] {
      if s[0] == ' ' {
        SqueezeKeepsText(s[1..], if state == Start then Start else Gap);
      } else {
        SqueezeKeepsText(s[1..], InWord);
        var p: string := if state == Gap then " " else "";
        UnspacedAppend(p + [s[0]], Squeeze(s[1..], InWord));
        UnspacedAppend(p, [s[0]]);
        assert Unspaced([s[0]]) == [s[0]] + Unspaced([]);
      }
    }
  }

  /** After a word, the scan continues the word up to the next space. */
  lemma {:induction false} SqueezeWord(s: string)
    ensures Squeeze(s, InWord) == s[..RunLength(s, " ")] + Squeeze(s[RunLength(s, " ")..], InWord)
    decreases |s|
  {
    if s != [] && s[0] != ' ' {
      SqueezeWord(s[1..]);
      var n := RunLength(s, " ");
      assert s[1..][..n - 1] == s[1..n];
      assert s[1..][n - 1..] == s[n..];
      assert s[..n] == [s[0]] + s[1..n];
    }
  }

  /** A word met at the start or after a gap is copied whole. */
  lemma {:induction false} SqueezeRun(s: string, state: ScanState)
    requires s != [] && s[0] != ' ' && state != InWord
    ensures Squeeze(s, state) ==
      (if state == Gap then " " else "") + s[..RunLength(s, " ")] + Squeeze(s[RunLength(s, " ")..], Gap)
  {
    var n := RunLength(s, " ");
    var rest := s[n..];
    var pre: string := if state == Gap then " " else "";
    assert Squeeze(s, state) == pre + [s[0]] + Squeeze(s[1..], InWord);
    SqueezeWord(s[1..]);
    assert RunLength(s[1..], " ") == n - 1;
    assert s[1..][..n - 1] == s[1..n];
    assert s[1..][n - 1..] == rest;
    SqueezeGapAtSpace(rest);
    var tail := Squeeze(rest, Gap);
    assert Squeeze(s[1..], InWord) == s[1..n] + tail;
    assert s[..n] == [s[0]] + s[1..n];
    AppendAssoc(pre, [s[0]], s[1..n] + tail);
    AppendAssoc([s[0]], s[1..n], tail);
    AppendAssoc(pre, s[..n], tail);
  }

  lemma AppendAssoc(a: string, b: string, c: string)
    ensures a + b + c == a + (b + c)
  {
  }

  /** At the end of a word, or at a space, InWord and Gap scan alike. */
  lemma SqueezeGapAtSpace(rest: string)
    requires rest != [] ==> rest[0] == ' '
    ensures Squeeze(rest, InWord) == Squeeze(rest, Gap)
  {
  }

  lemma {:induction false} JoinSpaceCons(t: string, ts: seq<string>)
    ensures JoinSpace([t] + ts) == if ts == [] then t else t + " " + JoinSpace(ts)
  {
    assert ([t] + ts)[1..] == ts;
  }

  /** The text a scan in `state` produces for the words `ts`. */
  function Spoken(ts: seq<string>, state: ScanState): string {
    if state == Start || ts == [] then JoinSpace(ts) else " " + JoinSpace(ts)
  }

  /**
   * stringarraycpy(tokenize(s, " ")) as text: the tokens joined by single
   * spaces are the input with its space runs collapsed and trimmed.
   */
  lemma {:induction false} JoinSplit(s: string, state: ScanState)
    requires state != InWord
    ensures Squeeze(s, state) == Spoken(Tokens(s, " "), state)
    decreases |s|, 1
  {
    if s != [] {
      if s[0] == ' ' {
        JoinSplit(s[1..], state);
        assert Tokens(s, " ") == Tokens(s[1..], " ");
        assert Squeeze(s, state) == Squeeze(s[1..], state);
      } else {
        JoinSplitWord(s, state);
      }
    }
  }

  lemma {:induction false} JoinSplitWord(s: string, state: ScanState)
    requires state != InWord && s != [] && s[0] != ' '
    ensures Squeeze(s, state) == Spoken(Tokens(s, " "), state)
    decreases |s|, 0
  {
    var n := RunLength(s, " ");
    var word, rest := s[..n], s[n..];
    var ts := Tokens(rest, " ");
    TokensOfWord(s);
    SqueezeRun(s, state);
    JoinSplit(rest, Gap);
    SpokenCons(word, ts, state);
  }

  lemma {:induction false} SpokenCons(word: string, ts: seq<string>, state: ScanState)
    requires word != [] && state != InWord
    ensures (if state == Gap then " " else "") + word + Spoken(ts, Gap) == Spoken([word] + ts, state)
  {
    var p: string := if state == Gap then " " else "";
    JoinSpaceCons(word, ts);
    assert Spoken([word] + ts, state) == p + JoinSpace([word] + ts);
    if ts == [] {
      assert Spoken(ts, Gap) == [];
      assert p + word + [] == p + word;
    } else {
      var j := JoinSpace(ts);
      assert Spoken(ts, Gap) == " " + j;
      AppendAssoc(word, " ", j);
      AppendAssoc(p, word, " " + j);
    }
  }

  lemma TokensOfWord(s: string)
    requires s != [] && s[0] != ' '
    ensures Tokens(s, " ") == [s[..RunLength(s, " ")]] + Tokens(s[RunLength(s, " ")..], " ")
  {
  }

  lemma {:induction false} JoinTokensSqueezes(s: string)
    ensures JoinSpace(Tokens(s, " ")) == Squeeze(s, Start)
  {
    JoinSplit(s, Start);
    assert Spoken(Tokens(s, " "), Start) == JoinSpace(Tokens(s, " "));
  }

  /**
   * Collapsing keeps the words: the squeezed text splits on spaces into the
   * same tokens as the input, and by SqueezeShape they are separated by
   * single spaces with none at either end.
   */
  lemma {:induction false} SqueezeKeepsTokens(s: string)
    ensures Tokens(Squeeze(s, Start), " ") == Tokens(s, " ")
  {
    JoinTokensSqueezes(s);
    SplitJoin(Tokens(s, " "));
  }
}
