/** The few operations of Go's `strings` and `strconv` packages that the daemon relies on. */
module Text {

  datatype Option<+T> = None | Some(value: T)

  predicate HasPrefix(s: string, prefix: string) {
    |prefix| <= |s| && s[..|prefix|] == prefix
  }

  predicate HasSuffix(s: string, suffix: string) {
    |suffix| <= |s| && s[|s| - |suffix|..] == suffix
  }

  /** `strings.TrimSuffix`. */
  function TrimSuffix(s: string, suffix: string): string {
    if HasSuffix(s, suffix) then s[..|s| - |suffix|] else s
  }

  /** The position of the first `c` in `s`, or `|s|` when there is none. */
  function IndexOf(s: string, c: char): (i: nat)
    ensures i <= |s|
    ensures forall j :: 0 <= j < i ==> s[j] != c
    ensures i < |s| ==> s[i] == c
    ensures c in s <==> i < |s|
  {
    if s == [] then 0
    else if s[0] == c then 0
    else
      assert s == [s[0]] + s[1..];
      1 + IndexOf(s[1..], c)
  }

  /** The first occurrence of `c` is found wherever a `c`-free head precedes it. */
  lemma {:induction false} IndexOfSplit(head: string, c: char, rest: string)
    requires c !in head
    ensures IndexOf(head + [c] + rest, c) == |head|
  {
    var s := head + [c] + rest;
    assert forall j :: 0 <= j < |head| ==> s[j] == head[j] != c;
    assert s[|head|] == c;
  }

  // ----- splitting -----

  function AddChar(c: char, parts: seq<string>): seq<string>
    requires parts != []
  {
    [[c] + parts[0]] + parts[1..]
  }

  /** `strings.Split` at a character. */
  function Split(s: string, sep: char): (parts: seq<string>)
    ensures |parts| > 0
  {
    if s == "" then [""]
    else if s[0] == sep then [""] + Split(s[1..], sep)
    else AddChar(s[0], Split(s[1..], sep))
  }

  lemma {:induction false} PrependConcat(c: char, xs: seq<string>, ys: seq<string>)
    requires xs != []
    ensures AddChar(c, xs + ys) == AddChar(c, xs) + ys
  {
  }

  /** Cutting at a separator cuts the list of parts. */
  lemma {:induction false} SplitConcat(head: string, sep: char, tail: string)
    ensures Split(head + [sep] + tail, sep) == Split(head, sep) + Split(tail, sep)
  {
    var s := head + [sep] + tail;
    if head == "" {
      assert s[1..] == tail;
    } else {
      assert s[1..] == head[1..] + [sep] + tail;
      SplitConcat(head[1..], sep, tail);
      if head[0] == sep {
        assert [""] + (Split(head[1..], sep) + Split(tail, sep)) == [""] + Split(head[1..], sep) + Split(tail, sep);
      } else {
        PrependConcat(head[0], Split(head[1..], sep), Split(tail, sep));
      }
    }
  }

  /** A text without the separator is one part. */
  lemma {:induction false} SplitPlain(s: string, sep: char)
    ensures |Split(s, sep)| == 1 <==> sep !in s
    ensures sep !in s ==> Split(s, sep) == [s]
  {
    if s != "" {
      SplitPlain(s[1..], sep);
      assert s == [s[0]] + s[1..];
    }
  }

  // ----- white space -----

  /** White space as `unicode.IsSpace` has it. */
  predicate IsSpace(c: char) {
    || '\t' <= c <= '\r'
    || c == ' '
    || c == '\U{0085}' || c == '\U{00A0}' || c == '\U{1680}'
    || '\U{2000}' <= c <= '\U{200a}'
    || c == '\U{2028}' || c == '\U{2029}' || c == '\U{202f}' || c == '\U{205f}' || c == '\U{3000}'
  }

  /** `strings.TrimSpace`. */
  function TrimSpace(s: string): (t: string)
    ensures t != "" ==> !IsSpace(t[0]) && !IsSpace(t[|t| - 1])
    ensures s == "" || (!IsSpace(s[0]) && !IsSpace(s[|s| - 1])) ==> t == s
  {
    if s == "" then ""
    else if IsSpace(s[0]) then TrimSpace(s[1..])
    else if IsSpace(s[|s| - 1]) then TrimSpace(s[..|s| - 1])
    else s
  }

  predicate AllSpaces(s: string) {
    forall i :: 0 <= i < |s| ==> IsSpace(s[i])
  }

  lemma {:induction false} TrimsFront(pre: string, s: string)
    requires AllSpaces(pre) && s != ""
    ensures TrimSpace(pre + s) == TrimSpace(s)
  {
    if pre == "" {
      assert pre + s == s;
    } else {
      assert (pre + s)[1..] == pre[1..] + s;
      TrimsFront(pre[1..], s);
    }
  }

  lemma {:induction false} TrimsBack(s: string, post: string)
    requires AllSpaces(post) && s != "" && !IsSpace(s[0])
    ensures TrimSpace(s + post) == TrimSpace(s)
  {
    if post == "" {
      assert s + post == s;
    } else {
      var shorter := post[..|post| - 1];
      assert (s + post)[..|s + post| - 1] == s + shorter;
      TrimsBack(s, shorter);
    }
  }

  /** White space around a text goes, and nothing else. */
  lemma {:induction false} TrimsTo(pre: string, core: string, post: string)
    requires AllSpaces(pre) && AllSpaces(post) && core != "" && !IsSpace(core[0]) && !IsSpace(core[|core| - 1])
    ensures TrimSpace(pre + core + post) == core
  {
    assert pre + core + post == pre + (core + post);
    TrimsFront(pre, core + post);
    TrimsBack(core, post);
  }

  lemma {:induction false} TrimsAway(s: string)
    requires AllSpaces(s)
    ensures TrimSpace(s) == ""
  {
    if s != "" {
      TrimsAway(s[1..]);
    }
  }

  // ----- decimal numbers -----

  const MAX_INT: int := 0x7fff_ffff_ffff_ffff

  predicate IsDigit(c: char) {
    '0' <= c <= '9'
  }

  predicate AllDigits(s: string) {
    forall i :: 0 <= i < |s| ==> IsDigit(s[i])
  }

  function DigitsValue(s: string): nat
    requires AllDigits(s)
  {
    if s == "" then 0
    else 10 * DigitsValue(s[..|s| - 1]) + (s[|s| - 1] as int - '0' as int)
  }

  /** `strconv.Atoi`: an optional sign, at least one digit, and a value that fits 64 bits. */
  function Atoi(s: string): Option<int> {
    var signed := s != "" && (s[0] == '+' || s[0] == '-');
    var digits := if signed then s[1..] else s;
    if digits == "" || !AllDigits(digits) then None
    else
      var v: int := DigitsValue(digits);
      if signed && s[0] == '-' then
        if v <= MAX_INT + 1 then Some(-v) else None
      else
        if v <= MAX_INT then Some(v) else None
  }

  /** Digits, at least one, with an optional sign in front. */
  predicate Signed(s: string, sign: string, digits: string) {
    s == sign + digits && digits != "" && AllDigits(digits)
  }

  lemma {:induction false} AtoiSigned(sign: string, digits: string)
    requires sign == "" || sign == "+" || sign == "-"
    requires digits != "" && AllDigits(digits)
    ensures var v: int := DigitsValue(digits);
            Atoi(sign + digits) == if sign == "-" then (if v <= MAX_INT + 1 then Some(-v) else None)
                                   else (if v <= MAX_INT then Some(v) else None)
  {
    assert IsDigit(digits[0]);
    if sign == "" {
      assert sign + digits == digits;
    } else {
      assert (sign + digits)[1..] == digits && (sign + digits)[0] == sign[0];
    }
  }

  lemma {:induction false} AtoiNeedsDigits(s: string) returns (sign: string, digits: string)
    requires Atoi(s).Some?
    ensures (sign == "" || sign == "+" || sign == "-") && Signed(s, sign, digits)
  {
    if s[0] == '+' || s[0] == '-' {
      sign, digits := s[..1], s[1..];
    } else {
      sign, digits := "", s;
    }
  }

  /** `%d` of a non-negative number. */
  function Decimal(n: nat): (s: string)
    ensures s != "" && AllDigits(s)
  {
    var last := [('0' as int + n % 10) as char];
    if n < 10 then last else Decimal(n / 10) + last
  }

  lemma {:induction false} DecimalValue(n: nat)
    ensures DigitsValue(Decimal(n)) == n
  {
    if n >= 10 {
      DecimalValue(n / 10);
      assert Decimal(n)[..|Decimal(n)| - 1] == Decimal(n / 10);
    }
  }

  /** Printing a number and reading it back gives the number. */
  lemma {:induction false} AtoiDecimal(n: nat)
    requires n <= MAX_INT
    ensures Atoi(Decimal(n)) == Some(n)
  {
    DecimalValue(n);
    assert IsDigit(Decimal(n)[0]);
  }
}
