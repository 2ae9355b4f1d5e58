/**
  The JavaScript string built-ins the bot relies on: trim, split on white space,
  split on a separator character, Number() restricted to integers, toLowerCase
  and replace with a string pattern.
*/
module JsText {
  import opened Options
  import opened Seqs

  /** The characters `String.prototype.trim` and the regular expression `\s`
      treat as white space: the WhiteSpace and LineTerminator productions of ECMA-262. */
  predicate IsSpace(c: char) {
    || c == '\U{9}' || c == '\U{A}' || c == '\U{B}' || c == '\U{C}' || c == '\U{D}'
    || c == ' ' || c == '\U{A0}' || c == '\U{1680}'
    || ('\U{2000}' <= c <= '\U{200A}')
    || c == '\U{2028}' || c == '\U{2029}' || c == '\U{202F}' || c == '\U{205F}'
    || c == '\U{3000}' || c == '\U{FEFF}'
  }

  predicate AllSpace(s: string) {
    forall i :: 0 <= i < |s| ==> IsSpace(s[i])
  }

  predicate NoSpace(s: string) {
    forall i :: 0 <= i < |s| ==> !IsSpace(s[i])
  }

  /** Neither end of `s` is white space. */
  predicate Trimmed(s: string) {
    s == [] || (!IsSpace(s[0]) && !IsSpace(s[|s| - 1]))
  }

  function TrimStart(s: string): (r: string)
    ensures |r| <= |s| && r == s[|s| - |r|..]
    ensures r == [] || !IsSpace(r[0])
    ensures AllSpace(s[..|s| - |r|])
  {
    if s != [] && IsSpace(s[0]) then TrimStart(s[1..]) else s
  }

  function TrimEnd(s: string): (r: string)
    ensures |r| <= |s| && r == s[..|r|]
    ensures r == [] || !IsSpace(r[|r| - 1])
    ensures AllSpace(s[|r|..])
  {
    if s != [] && IsSpace(s[|s| - 1]) then TrimEnd(s[..|s| - 1]) else s
  }

  /** String.prototype.trim. */
  function Trim(s: string): (r: string)
    ensures Trimmed(r)
    ensures |r| <= |s|
  {
    TrimEnd(TrimStart(s))
  }

  lemma {:induction false} TrimStartSkips(pre: string, rest: string)
    requires AllSpace(pre)
    requires rest == [] || !IsSpace(rest[0])
    ensures TrimStart(pre + rest) == rest
  {
    if pre != [] {
      assert (pre + rest)[1..] == pre[1..] + rest;
      TrimStartSkips(pre[1..], rest);
    } else {
      assert pre + rest == rest;
    }
  }

  lemma {:induction false} TrimEndSkips(rest: string, post: string)
    requires AllSpace(post)
    requires rest == [] || !IsSpace(rest[|rest| - 1])
    ensures TrimEnd(rest + post) == rest
  {
    if post != [] {
      var n := |post| - 1;
      assert (rest + post)[..|rest + post| - 1] == rest + post[..n];
      TrimEndSkips(rest, post[..n]);
    } else {
      assert rest + post == rest;
    }
  }

  /** Trim removes exactly the white space around a trimmed core: whatever
      spaces surround `core`, trimming gives back `core`. */
  lemma TrimStrips(pre: string, core: string, post: string)
    requires AllSpace(pre) && AllSpace(post) && Trimmed(core)
    ensures Trim(pre + core + post) == core
  {
    if core == [] {
      assert pre + core + post == pre + post;
      assert AllSpace(pre + post);
      TrimStartSkips(pre + post, []);
      assert pre + post + [] == pre + post;
    } else {
      assert pre + core + post == pre + (core + post);
      TrimStartSkips(pre, core + post);
      TrimEndSkips(core, post);
    }
  }

  lemma TrimTrimmed(t: string)
    requires Trimmed(t)
    ensures Trim(t) == t
  {
    AppendEmpty(t);
    TrimStrips([], t, []);
  }

  lemma TrimIdempotent(s: string)
    ensures Trim(Trim(s)) == Trim(s)
  {
    TrimTrimmed(Trim(s));
  }

  /** The longest prefix of `s` that holds no white space. */
  function Word(s: string): (w: string)
    ensures |w| <= |s| && w == s[..|w|]
    ensures NoSpace(w)
    ensures |w| == |s| || IsSpace(s[|w|])
  {
    if s == [] || IsSpace(s[0]) then [] else [s[0]] + Word(s[1..])
  }

  /** The white-space separated words of `s`. For a string with a non-space
      character this is what `s.trim().split(/\s+/)` returns; for an all-space
      string JavaScript returns `[""]`, whose only element no caller can mistake
      for a command word or an argument. */
  function Tokens(s: string): (ws: seq<string>)
    decreases |s|
  {
    var t := TrimStart(s);
    if t == [] then []
    else
      var w := Word(t);
      assert |w| > 0 by {
        assert !IsSpace(t[0]);
      }
      [w] + Tokens(t[|w|..])
  }

  /** A text has no tokens exactly when it is blank. */
  lemma TokensBlank(s: string)
    ensures Tokens(s) == [] <==> AllSpace(s)
  {
    var t := TrimStart(s);
    if t != [] {
      assert !IsSpace(s[|s| - |t|]);
    }
  }

  /** A token: a non-empty run of non-space characters. */
  predicate IsWord(w: string) {
    w != [] && NoSpace(w)
  }

  /** Every token is a word. */
  lemma {:induction false} TokensAreWords(s: string)
    ensures forall i :: 0 <= i < |Tokens(s)| ==> IsWord(Tokens(s)[i])
    decreases |s|
  {
    var t := TrimStart(s);
    if t != [] {
      var w := Word(t);
      assert !IsSpace(t[0]);
      TokensAreWords(t[|w|..]);
      AllWordsCons(w, Tokens(t[|w|..]));
    }
  }

  lemma AllWordsCons(w: string, rest: seq<string>)
    requires IsWord(w)
    requires forall i :: 0 <= i < |rest| ==> IsWord(rest[i])
    ensures forall i :: 0 <= i < |[w] + rest| ==> IsWord(([w] + rest)[i])
  {
    forall i | 0 < i < |[w] + rest| ensures IsWord(([w] + rest)[i]) {
      assert ([w] + rest)[i] == rest[i - 1];
    }
  }

  /** Words joined with single spaces: the string a user types for `ws`. */
  function Unwords(ws: seq<string>): string {
    if ws == [] then []
    else if |ws| == 1 then ws[0]
    else ws[0] + (" " + Unwords(ws[1..]))
  }

  lemma {:induction false} WordStops(w: string, rest: string)
    requires NoSpace(w)
    requires rest == [] || IsSpace(rest[0])
    ensures Word(w + rest) == w
  {
    if w == [] {
      assert w + rest == rest;
    } else {
      assert (w + rest)[1..] == w[1..] + rest;
      WordStops(w[1..], rest);
    }
  }

  /** A leading word followed by white space (or nothing) is the first token. */
  lemma TokensCons(w: string, rest: string)
    requires w != [] && NoSpace(w)
    requires rest == [] || IsSpace(rest[0])
    ensures Tokens(w + rest) == [w] + Tokens(rest)
  {
    var s := w + rest;
    assert [] + s == s;
    TrimStartSkips([], s);
    WordStops(w, rest);
    assert s[|w|..] == rest;
  }

  lemma TokensSkipSpace(tail: string)
    ensures Tokens(" " + tail) == Tokens(tail)
  {
    assert (" " + tail)[1..] == tail;
    assert TrimStart(" " + tail) == TrimStart(tail);
  }

  /** A single word is its own only token. */
  lemma TokensOfWord(w: string)
    requires IsWord(w)
    ensures Tokens(w) == [w]
  {
    AppendEmpty(w);
    TokensCons(w, []);
    assert Tokens([]) == [];
  }

  lemma TokensUnwordsStep(ws: seq<string>)
    requires |ws| >= 2 && IsWord(ws[0])
    requires Tokens(Unwords(ws[1..])) == ws[1..]
    ensures Tokens(Unwords(ws)) == ws
  {
    var tail := Unwords(ws[1..]);
    assert Unwords(ws) == ws[0] + (" " + tail);
    TokensCons(ws[0], " " + tail);
    TokensSkipSpace(tail);
    HeadTail(ws);
  }

  /** Two words joined by one space split back into those two words. */
  lemma TokensOfPair(a: string, b: string)
    requires IsWord(a) && IsWord(b)
    ensures Tokens(a + " " + b) == [a, b]
  {
    var rest := " " + b;
    AppendAssoc(a, " ", b);
    assert IsSpace(rest[0]);
    TokensCons(a, rest);
    TokensSkipSpace(b);
    TokensOfWord(b);
  }

  /** Splitting on white space undoes joining with spaces. */
  lemma {:induction false} TokensUnwords(ws: seq<string>)
    requires forall i :: 0 <= i < |ws| ==> IsWord(ws[i])
    ensures Tokens(Unwords(ws)) == ws
  {
    if |ws| == 1 {
      TokensCons(ws[0], []);
      AppendEmpty(ws[0]);
    } else if ws != [] {
      TokensUnwords(ws[1..]);
      TokensUnwordsStep(ws);
    }
  }

  predicate IsDigit(c: char) {
    '0' <= c <= '9'
  }

  predicate AllDigits(s: string) {
    forall i :: 0 <= i < |s| ==> IsDigit(s[i])
  }

  function DigitValue(c: char): nat
    requires IsDigit(c)
  {
    c as int - '0' as int
  }

  /** The value of a decimal digit string; leading zeros are allowed. */
  function DecimalValue(s: string): nat
    requires AllDigits(s)
  {
    if s == [] then 0 else DecimalValue(s[..|s| - 1]) * 10 + DigitValue(s[|s| - 1])
  }

  /** 2^53: every integer of at most this magnitude is a double, and `Number` reads its spelling exactly. */
  const MaxSafe: int := 9007199254740992

  /**
    2^1024 - 2^970, half way between the largest finite double and 2^1024.
    A decimal integer of at least this magnitude rounds to Infinity, which
    `Number.isInteger` rejects.
  */
  const DoubleOverflow: int := 179769313486231580793728971405303415079934132710037826936173778980444968292764750946649017977587207096330286416692887910946555547851940402630657488671505820681908902000708383676273854845817711531764475730270069855571366959622842914819860834936475292719074168444365510704342711559699508093042880177904174497792

  /**
    The distance between neighbouring doubles around `v`: the first value
    reached from `p` by doubling that exceeds `v` when multiplied by 2^53.
    Started from 1 it is the power of two whose multiples by 2^52 to 2^53 hold `v`.
  */
  function Spacing(v: nat, p: nat): (q: nat)
    requires p >= 1
    ensures q >= p && v < MaxSafe * q
    ensures q == p || MaxSafe * q <= 2 * v
    ensures q != p ==> q % 2 == 0
    decreases if v < MaxSafe * p then 0 else v - MaxSafe * p + 1
  {
    if v < MaxSafe * p then p else Spacing(v, 2 * p)
  }

  /** Both rounding candidates, q * p and q * p + p, are even when the spacing is. */
  lemma EvenCandidates(q: nat, p: nat)
    ensures p % 2 == 0 ==> (q * p) % 2 == 0 && (q * p + p) % 2 == 0
  {
    if p % 2 == 0 {
      var h := p / 2;
      assert q * p == 2 * (q * h);
      assert q * p + p == 2 * (q * h + h);
    }
  }

  lemma DivMod(v: nat, p: nat)
    requires p >= 1
    ensures v == (v / p) * p + v % p && 0 <= v % p < p
  {
  }

  /**
    `v` rounded to the nearest double, a tie going to the even multiple of
    the spacing: the value `Number` gives a long decimal spelling, before
    the overflow test.
  */
  function RoundToDouble(v: nat): (r: nat)
    ensures 2 * (if r < v then v - r else r - v) <= Spacing(v, 1)
    ensures v <= MaxSafe ==> r == v
    ensures v >= MaxSafe ==> r % 2 == 0
  {
    var p := Spacing(v, 1);
    var q := v / p;
    var rem := v % p;
    DivMod(v, p);
    EvenCandidates(q, p);
    assert v >= MaxSafe ==> p != 1;
    if 2 * rem > p || (2 * rem == p && q % 2 == 1) then q * p + p else q * p
  }

  lemma NegateEven(m: int)
    ensures m % 2 == 0 ==> (-m) % 2 == 0
  {
    if m % 2 == 0 {
      assert -m == 2 * -(m / 2);
    }
  }

  /** The integer a double holds for the exact integer `v`, or None when `v` rounds to an infinity. */
  function NumberOf(v: int): (r: Option<int>)
    ensures r.None? <==> v >= DoubleOverflow || v <= -DoubleOverflow
    ensures -MaxSafe <= v <= MaxSafe ==> r == Some(v)
    ensures r.Some? && (r.value > MaxSafe || r.value < -MaxSafe) ==> r.value % 2 == 0
  {
    if v >= DoubleOverflow || -v >= DoubleOverflow then None
    else if v < 0 then var m: int := RoundToDouble(-v); NegateEven(m); Some(-m)
    else Some(RoundToDouble(v))
  }

  /**
    `Number(text)` followed by `Number.isInteger`: the integer a message denotes,
    or None when JavaScript would give NaN, an infinity or a non-integer.
    Surrounding white space is ignored and an empty or all-space text is 0, as
    in JavaScript. A spelling beyond 2^53 is rounded to a double, so only even
    values come out there.
  */
  function ParseInteger(text: string): (r: Option<int>)
    ensures Trim(text) == [] ==> r == Some(0)
    ensures r.Some? && (r.value > MaxSafe || r.value < -MaxSafe) ==> r.value % 2 == 0
  {
    ParseTrimmedInteger(Trim(text))
  }

  /** An optional sign followed by decimal digits, rounded to a double; the empty text is 0. */
  function ParseTrimmedInteger(t: string): (r: Option<int>)
    ensures t == [] ==> r == Some(0)
    ensures r.Some? && (r.value > MaxSafe || r.value < -MaxSafe) ==> r.value % 2 == 0
  {
    if t == [] then Some(0)
    else if (t[0] == '-' || t[0] == '+') && |t| > 1 && AllDigits(t[1..]) then
      var v: int := DecimalValue(t[1..]);
      NumberOf(if t[0] == '-' then -v else v)
    else if AllDigits(t) then NumberOf(DecimalValue(t))
    else None
  }

  function DigitChar(d: nat): (c: char)
    requires d < 10
    ensures IsDigit(c) && DigitValue(c) == d
  {
    ('0' as int + d) as char
  }

  /** The decimal spelling of `n`, without leading zeros. */
  function NatToString(n: nat): (s: string)
    ensures s != [] && AllDigits(s)
    ensures |s| > 1 ==> s[0] != '0'
    decreases n
  {
    if n < 10 then [DigitChar(n)] else NatToString(n / 10) + [DigitChar(n % 10)]
  }

  /** The spelling of `n` the way String(n) writes it. */
  function IntToString(n: int): string {
    if n < 0 then "-" + NatToString(-n) else NatToString(n)
  }

  lemma {:induction false} DecimalValueOfNatToString(n: nat)
    ensures DecimalValue(NatToString(n)) == n
    decreases n
  {
    if n >= 10 {
      var s := NatToString(n / 10);
      DecimalValueOfNatToString(n / 10);
      assert (s + [DigitChar(n % 10)])[..|s|] == s;
    }
  }

  lemma ParseTrimmedIntegerOfSpelling(n: int)
    ensures ParseTrimmedInteger(IntToString(n)) == NumberOf(n)
  {
    if n < 0 {
      var digits := NatToString(-n);
      DecimalValueOfNatToString(-n);
      assert IntToString(n)[1..] == digits;
    } else {
      DecimalValueOfNatToString(n);
    }
  }

  lemma SpellingIsTrimmed(n: int)
    ensures Trimmed(IntToString(n))
  {
    var s := IntToString(n);
    var digits := NatToString(if n < 0 then -n else n);
    assert IsDigit(digits[0]) && IsDigit(digits[|digits| - 1]);
    assert s[|s| - 1] == digits[|digits| - 1];
  }

  /**
    The spelling of any integer, with or without white space around it, reads
    back as that integer rounded to a double: exactly itself up to 2^53, and
    not an integer at all from the overflow bound on.
  */
  lemma ParseIntegerRoundTrip(n: int, pre: string, post: string)
    requires AllSpace(pre) && AllSpace(post)
    ensures ParseInteger(pre + IntToString(n) + post) == NumberOf(n)
    ensures -MaxSafe <= n <= MaxSafe ==> ParseInteger(pre + IntToString(n) + post) == Some(n)
  {
    SpellingIsTrimmed(n);
    TrimStrips(pre, IntToString(n), post);
    ParseTrimmedIntegerOfSpelling(n);
  }

  lemma ParseIntegerOfSpelling(n: int)
    ensures ParseInteger(IntToString(n)) == NumberOf(n)
    ensures -MaxSafe <= n <= MaxSafe ==> ParseInteger(IntToString(n)) == Some(n)
  {
    SpellingIsTrimmed(n);
    TrimTrimmed(IntToString(n));
    ParseTrimmedIntegerOfSpelling(n);
  }

  lemma SpacingJustAboveSafe()
    ensures Spacing(MaxSafe + 1, 1) == 2
  {
    assert Spacing(MaxSafe + 1, 2) == 2;
  }

  /** 2^53 + 1 lies half way between the doubles 2^53 and 2^53 + 2; the tie goes to 2^53. */
  lemma RoundJustAboveSafe()
    ensures RoundToDouble(MaxSafe + 1) == MaxSafe
  {
    SpacingJustAboveSafe();
    var v := MaxSafe + 1;
    assert v / 2 == 4503599627370496 && v % 2 == 1;
  }

  /** "9007199254740993" reads as 9007199254740992. */
  lemma BeyondSafeRounds()
    ensures ParseInteger(IntToString(MaxSafe + 1)) == Some(MaxSafe)
  {
    ParseIntegerOfSpelling(MaxSafe + 1);
    RoundJustAboveSafe();
  }

  /** A spelling at or beyond the overflow bound, such as a 1 followed by 309 zeros, is not an integer. */
  lemma HugeSpellingIsNotInteger(n: int)
    requires n >= DoubleOverflow || n <= -DoubleOverflow
    ensures ParseInteger(IntToString(n)) == None
  {
    ParseIntegerOfSpelling(n);
  }

  /**
    A character as toLowerCase maps it: ASCII and Cyrillic capitals, and
    the Kelvin sign, whose lower case is the ASCII letter k. Other
    characters are unchanged.
  */
  function LowerChar(c: char): char {
    if 'A' <= c <= 'Z' || '\U{410}' <= c <= '\U{42F}' then (c as int + 32) as char
    else if '\U{400}' <= c <= '\U{40F}' then (c as int + 80) as char
    else if c == '\U{212A}' then 'k'
    else c
  }

  /** String.prototype.toLowerCase, character by character. */
  function ToLower(s: string): (r: string)
    ensures |r| == |s|
    ensures forall i :: 0 <= i < |s| ==> r[i] == LowerChar(s[i])
  {
    if s == [] then [] else [LowerChar(s[0])] + ToLower(s[1..])
  }

  lemma ToLowerIdempotent(s: string)
    ensures ToLower(ToLower(s)) == ToLower(s)
  {
  }

  predicate StartsWith(s: string, prefix: string) {
    |prefix| <= |s| && s[..|prefix|] == prefix
  }

  predicate OccursAt(s: string, pat: string, i: int) {
    0 <= i && i + |pat| <= |s| && s[i..i + |pat|] == pat
  }

  /** `pat` occurs at `i` and nowhere earlier. */
  predicate FirstOccurrence(s: string, pat: string, i: int) {
    OccursAt(s, pat, i) && forall j :: 0 <= j < i ==> !OccursAt(s, pat, j)
  }

  function FindFrom(s: string, pat: string, i: nat): (r: Option<nat>)
    ensures r.Some? ==> i <= r.value && OccursAt(s, pat, r.value)
    ensures r.Some? ==> forall j :: i <= j < r.value ==> !OccursAt(s, pat, j)
    ensures r.None? ==> forall j :: i <= j ==> !OccursAt(s, pat, j)
    decreases |s| - i
  {
    if i + |pat| > |s| then None
    else if s[i..i + |pat|] == pat then Some(i)
    else FindFrom(s, pat, i + 1)
  }

  /** `s.replace(pat, "")` with a string pattern: only the first occurrence goes. */
  function RemoveFirst(s: string, pat: string): (r: string)
    ensures (forall j :: !OccursAt(s, pat, j)) ==> r == s
    ensures forall i :: FirstOccurrence(s, pat, i) ==> r == s[..i] + s[i + |pat|..]
  {
    match FindFrom(s, pat, 0)
    case None => s
    case Some(i) => s[..i] + s[i + |pat|..]
  }

  /** `s.split(sep)` with a one-character separator. */
  function Split(s: string, sep: char): (parts: seq<string>)
    ensures |parts| >= 1
    ensures forall i :: 0 <= i < |parts| ==> sep !in parts[i]
    ensures Join(parts, sep) == s
  {
    if s == [] then [[]]
    else if s[0] == sep then
      var rest := Split(s[1..], sep);
      assert Join([[]] + rest, sep) == [] + [sep] + Join(rest, sep);
      [[]] + rest
    else
      var rest := Split(s[1..], sep);
      var parts := [[s[0]] + rest[0]] + rest[1..];
      assert parts[1..] == rest[1..];
      if |rest| == 1 then
        parts
      else
        assert Join(rest, sep) == rest[0] + [sep] + Join(rest[1..], sep);
        assert Join(parts, sep) == [s[0]] + rest[0] + [sep] + Join(rest[1..], sep);
        parts
  }

  /** `parts.join(sep)`. */
  function Join(parts: seq<string>, sep: char): string {
    if parts == [] then []
    else if |parts| == 1 then parts[0]
    else parts[0] + [sep] + Join(parts[1..], sep)
  }

  /** With a separator present, the first part is the text before its first occurrence. */
  lemma SplitHead(s: string, sep: char)
    requires |Split(s, sep)| >= 2
    ensures var p0 := Split(s, sep)[0]; |p0| < |s| && s[..|p0|] == p0 && s[|p0|] == sep
  {
    var parts := Split(s, sep);
    assert Join(parts, sep) == parts[0] + [sep] + Join(parts[1..], sep);
  }

  lemma {:induction false} SplitFirst(a: string, sep: char, rest: string)
    requires sep !in a
    ensures Split(a + [sep] + rest, sep) == [a] + Split(rest, sep)
  {
    if a == [] {
      assert a + [sep] + rest == [sep] + rest;
      assert ([sep] + rest)[1..] == rest;
    } else {
      var s := a + [sep] + rest;
      assert s[0] == a[0] && s[1..] == a[1..] + [sep] + rest;
      SplitFirst(a[1..], sep, rest);
      assert [a[0]] + a[1..] == a;
    }
  }

  lemma {:induction false} SplitWhole(a: string, sep: char)
    requires sep !in a
    ensures Split(a, sep) == [a]
  {
    if a != [] {
      SplitWhole(a[1..], sep);
      assert [a[0]] + a[1..] == a;
    }
  }

  /** Splitting undoes joining when no part holds the separator. */
  lemma {:induction false} SplitJoin(parts: seq<string>, sep: char)
    requires |parts| >= 1
    requires forall i :: 0 <= i < |parts| ==> sep !in parts[i]
    ensures Split(Join(parts, sep), sep) == parts
  {
    if |parts| == 1 {
      SplitWhole(parts[0], sep);
    } else {
      SplitJoin(parts[1..], sep);
      SplitFirst(parts[0], sep, Join(parts[1..], sep));
      assert [parts[0]] + parts[1..] == parts;
    }
  }
}
