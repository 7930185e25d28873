/** The parts of Go's strings and strconv packages the driver leans on. */
module Text {
  import opened Trees

  function LowerChar(c: char): char {
    if 'A' <= c <= 'Z' then (c as int + 32) as char else c
  }

  function ToLower(s: string): string {
    seq(|s|, i requires 0 <= i < |s| => LowerChar(s[i]))
  }

  predicate SameLetter(c: char, d: char) {
    c == d || ('A' <= c <= 'Z' && c as int + 32 == d as int)
  }

  /** s is the word in any letter case, where the word has no upper-case letter. */
  predicate SpellsLetters(s: string, word: string) {
    |s| == |word| && forall i | 0 <= i < |s| :: SameLetter(s[i], word[i])
  }

  lemma {:induction false} LettersIff(s: string, word: string)
    requires forall i | 0 <= i < |word| :: !('A' <= word[i] <= 'Z')
    ensures ToLower(s) == word <==> SpellsLetters(s, word)
  {
    if |s| == |word| {
      forall i | 0 <= i < |s|
        ensures ToLower(s)[i] == word[i] <==> SameLetter(s[i], word[i])
      {
      }
    }
  }

  function IndexOf(s: string, c: char): (n: nat)
    ensures n <= |s| && c !in s[..n] && (n < |s| ==> s[n] == c)
  {
    if s == "" || s[0] == c then 0
    else
      var n := 1 + IndexOf(s[1..], c);
      assert s[..n] == [s[0]] + s[1..][..n - 1];
      n
  }

  function Split(s: string, sep: char): (parts: seq<string>)
    ensures |parts| > 0 && forall p | p in parts :: sep !in p
    decreases |s|
  {
    var n := IndexOf(s, sep);
    if n == |s| then (assert s[..n] == s; [s]) else [s[..n]] + Split(s[n + 1..], sep)
  }

  function Join(parts: seq<string>, sep: char): string {
    if parts == [] then ""
    else if |parts| == 1 then parts[0]
    else parts[0] + [sep] + Join(parts[1..], sep)
  }

  lemma {:induction false} IndexAt(s: string, c: char, n: nat)
    requires n <= |s| && c !in s[..n] && (n < |s| ==> s[n] == c)
    ensures IndexOf(s, c) == n
  {
    var m := IndexOf(s, c);
    assert forall i | 0 <= i < n :: s[..n][i] == s[i];
    assert forall i | 0 <= i < m :: s[..m][i] == s[i];
  }

  /** What separators were put between, splitting finds again. */
  lemma {:induction false} SplitOfJoin(parts: seq<string>, sep: char)
    requires parts != [] && forall p | p in parts :: sep !in p
    ensures Split(Join(parts, sep), sep) == parts
  {
    var s := Join(parts, sep);
    assert parts[0] in parts;
    if |parts| == 1 {
      assert s[..|s|] == s;
      IndexAt(s, sep, |s|);
    } else {
      assert s[..|parts[0]|] == parts[0] && s[|parts[0]| + 1..] == Join(parts[1..], sep);
      IndexAt(s, sep, |parts[0]|);
      SplitOfJoin(parts[1..], sep);
    }
  }

  lemma {:induction false} SplitWhole(s: string, sep: char)
    requires sep !in s
    ensures Split(s, sep) == [s]
  {
    assert s[..|s|] == s;
    IndexAt(s, sep, |s|);
  }

  lemma {:induction false} SplitAt(s: string, sep: char, n: nat)
    requires n < |s| && s[n] == sep && sep !in s[..n]
    ensures Split(s, sep) == [s[..n]] + Split(s[n + 1..], sep)
  {
    IndexAt(s, sep, n);
  }

  lemma {:induction false} SplitOfConcat(a: string, b: string, sep: char)
    ensures Split(a + [sep] + b, sep) == Split(a, sep) + Split(b, sep)
    decreases |a|
  {
    var s, n := a + [sep] + b, IndexOf(a, sep);
    assert s[..n] == a[..n];
    SplitAt(s, sep, n);
    if n == |a| {
      assert a[..n] == a && s[n + 1..] == b;
      SplitWhole(a, sep);
    } else {
      var rest := a[n + 1..];
      assert s[n + 1..] == rest + [sep] + b;
      SplitAt(a, sep, n);
      SplitOfConcat(rest, b, sep);
      Associative([a[..n]], Split(rest, sep), Split(b, sep));
    }
  }

  lemma {:induction false} JoinOfSplit(s: string, sep: char)
    ensures Join(Split(s, sep), sep) == s
    decreases |s|
  {
    var n := IndexOf(s, sep);
    if n < |s| {
      JoinOfSplit(s[n + 1..], sep);
      assert s == s[..n] + [sep] + s[n + 1..];
      assert Split(s, sep)[1..] == Split(s[n + 1..], sep);
    } else {
      assert s[..n] == s;
    }
  }

  lemma {:induction false} JoinOfConcat(a: seq<string>, b: seq<string>, sep: char)
    requires a != [] && b != []
    ensures Join(a + b, sep) == Join(a, sep) + [sep] + Join(b, sep)
  {
    assert (a + b)[1..] == a[1..] + b;
    if |a| > 1 {
      JoinOfConcat(a[1..], b, sep);
    }
  }

  // ---------- white space ----------

  /** unicode.IsSpace */
  predicate IsSpace(c: char) {
    || '\t' <= c <= '\r' || c == ' ' || c == '\U{85}' || c == '\U{A0}' || c == '\U{1680}' || '\U{2000}' <= c <= '\U{200a}'
    || c == '\U{2028}' || c == '\U{2029}' || c == '\U{202f}' || c == '\U{205f}' || c == '\U{3000}'
  }

  predicate IsWord(s: string) {
    s != "" && forall c | c in s :: !IsSpace(c)
  }

  function WordEnd(s: string): (n: nat)
    ensures n <= |s| && (forall i | 0 <= i < n :: !IsSpace(s[i])) && (n < |s| ==> IsSpace(s[n]))
  {
    if s == "" || IsSpace(s[0]) then 0 else 1 + WordEnd(s[1..])
  }

  function Fields(s: string): (words: seq<string>)
    ensures forall w | w in words :: IsWord(w)
    decreases |s|
  {
    if s == "" then []
    else if IsSpace(s[0]) then Fields(s[1..])
    else [s[..WordEnd(s)]] + Fields(s[WordEnd(s)..])
  }

  lemma {:induction false} WordEndAt(s: string, n: nat)
    requires n <= |s| && (forall i | 0 <= i < n :: !IsSpace(s[i])) && (n < |s| ==> IsSpace(s[n]))
    ensures WordEnd(s) == n
  {
  }

  lemma {:induction false} FirstField(w: string, rest: string)
    requires IsWord(w) && (rest != "" ==> IsSpace(rest[0]))
    ensures Fields(w + rest) == [w] + Fields(rest)
  {
    var s := w + rest;
    assert forall i | 0 <= i < |w| :: s[i] == w[i] && w[i] in w;
    WordEndAt(s, |w|);
    assert s[..|w|] == w && s[|w|..] == rest;
  }

  /** White space before a word is left out, and the word ends at the next. */
  lemma {:induction false} FieldsRule(a: string, w: string, rest: string)
    requires AllSpace(a) && IsWord(w) && (rest != "" ==> IsSpace(rest[0]))
    ensures Fields(a) == [] && Fields(a + w + rest) == [w] + Fields(rest)
  {
    if a == "" {
      assert a + w + rest == w + rest;
      FirstField(w, rest);
    } else {
      assert AllSpace(a[1..]) by {
        assert forall i | 0 <= i < |a[1..]| :: a[1..][i] == a[i + 1];
      }
      assert (a + w + rest)[1..] == a[1..] + w + rest;
      FieldsRule(a[1..], w, rest);
    }
  }

  /** Words joined by single spaces are found again. */
  lemma {:induction false} FieldsOfJoin(words: seq<string>)
    requires forall w | w in words :: IsWord(w)
    ensures Fields(Join(words, ' ')) == words
  {
    if |words| == 1 {
      assert words[0] in words && words[0] + "" == words[0];
      FirstField(words[0], "");
    } else if |words| > 1 {
      assert words[0] in words;
      var rest := Join(words[1..], ' ');
      FieldsOfJoin(words[1..]);
      FirstField(words[0], [' '] + rest);
      assert words[0] + [' '] + rest == words[0] + ([' '] + rest);
      assert ([' '] + rest)[1..] == rest;
    }
  }

  function TrimLeft(s: string): string {
    if s != "" && IsSpace(s[0]) then TrimLeft(s[1..]) else s
  }

  function TrimRight(s: string): string {
    if s != "" && IsSpace(s[|s| - 1]) then TrimRight(s[..|s| - 1]) else s
  }

  function TrimSpace(s: string): string {
    TrimRight(TrimLeft(s))
  }

  predicate AllSpace(s: string) {
    forall i | 0 <= i < |s| :: IsSpace(s[i])
  }

  /** No white space at either end; nothing at all is bare too. */
  predicate IsBare(s: string) {
    s != "" ==> !IsSpace(s[0]) && !IsSpace(s[|s| - 1])
  }

  /** Of the ASCII characters the blank and the five controls from tab to carriage return are white space. */
  lemma {:induction false} AsciiSpace(c: char)
    requires c as int < 128
    ensures IsSpace(c) <==> c in " \t\n\U{0b}\U{0c}\r"
  {
    var s := " \t\n\U{0b}\U{0c}\r";
    assert s[0] == ' ' && s[1] == '\t' && s[2] == '\n' && s[3] == '\U{0b}' && s[4] == '\U{0c}' && s[5] == '\r';
  }

  lemma {:induction false} TrimLeftOf(a: string, s: string)
    requires AllSpace(a) && (s != "" ==> !IsSpace(s[0]))
    ensures TrimLeft(a + s) == s
  {
    if a != "" {
      assert AllSpace(a[1..]) by {
        assert forall i | 0 <= i < |a[1..]| :: a[1..][i] == a[i + 1];
      }
      assert (a + s)[1..] == a[1..] + s;
      TrimLeftOf(a[1..], s);
    } else {
      assert a + s == s;
    }
  }

  lemma {:induction false} TrimRightOf(s: string, b: string)
    requires AllSpace(b) && (s != "" ==> !IsSpace(s[|s| - 1]))
    ensures TrimRight(s + b) == s
    decreases |b|
  {
    if b != "" {
      assert (s + b)[..|s + b| - 1] == s + b[..|b| - 1];
      TrimRightOf(s, b[..|b| - 1]);
    } else {
      assert s + b == s;
    }
  }

  /** TrimSpace takes off the white space at both ends, and no more. */
  lemma {:induction false} TrimSpaceOf(a: string, w: string, b: string)
    requires AllSpace(a) && AllSpace(b) && IsBare(w)
    ensures TrimSpace(a + w + b) == w
  {
    if w == "" {
      assert a + w + b == (a + b) + "";
      TrimLeftOf(a + b, "");
    } else {
      assert a + w + b == a + (w + b);
      TrimLeftOf(a, w + b);
      TrimRightOf(w, b);
    }
  }

  lemma {:induction false} TrimmedOff(s: string) returns (a: string, b: string)
    ensures AllSpace(a) && AllSpace(b) && IsBare(TrimSpace(s)) && s == a + TrimSpace(s) + b
  {
    a := TrimmedLeft(s);
    b := TrimmedRight(TrimLeft(s));
    assert a + (TrimSpace(s) + b) == a + TrimSpace(s) + b;
  }

  lemma {:induction false} TrimmedLeft(s: string) returns (a: string)
    ensures AllSpace(a) && s == a + TrimLeft(s) && (TrimLeft(s) != "" ==> !IsSpace(TrimLeft(s)[0]))
  {
    if s != "" && IsSpace(s[0]) {
      a := TrimmedLeft(s[1..]);
      a := [s[0]] + a;
    } else {
      a := "";
    }
  }

  lemma {:induction false} TrimmedRight(s: string) returns (b: string)
    ensures AllSpace(b) && s == TrimRight(s) + b && (TrimRight(s) != "" ==> !IsSpace(TrimRight(s)[|TrimRight(s)| - 1]))
    decreases |s|
  {
    if s != "" && IsSpace(s[|s| - 1]) {
      b := TrimmedRight(s[..|s| - 1]);
      b := b + [s[|s| - 1]];
    } else {
      b := "";
    }
  }

  /** strings.TrimRight(s, "/") */
  function TrimSlashes(s: string): (r: string)
    ensures r <= s && (r == "" || r[|r| - 1] != '/') && forall i | |r| <= i < |s| :: s[i] == '/'
  {
    if s != "" && s[|s| - 1] == '/' then TrimSlashes(s[..|s| - 1]) else s
  }

  function TrimPrefix(s: string, p: string): string {
    if p <= s then s[|p|..] else s
  }

  // ---------- numbers ----------

  const MIN_INT := -0x8000_0000_0000_0000
  const MAX_INT := 0x7fff_ffff_ffff_ffff

  predicate IsDigit(c: char) {
    '0' <= c <= '9'
  }

  function Digits(n: nat): (s: string)
    ensures s != "" && forall c | c in s :: IsDigit(c)
  {
    var d := [(n % 10 + '0' as int) as char];
    if n < 10 then d else Digits(n / 10) + d
  }

  function Value(s: string): nat
    requires forall c | c in s :: IsDigit(c)
  {
    if s == "" then 0
    else
      assert IsDigit(s[|s| - 1]);
      Value(s[..|s| - 1]) * 10 + (s[|s| - 1] as int - '0' as int)
  }

  /** A sign or none, at least one digit, and the value has to fit 64 bits. */
  function Atoi(s: string): Option<int> {
    var digits := if s != "" && (s[0] == '-' || s[0] == '+') then s[1..] else s;
    if digits == "" || exists c | c in digits :: !IsDigit(c) then None
    else
      var n: int := if s[0] == '-' then 0 - Value(digits) else Value(digits);
      if MIN_INT <= n <= MAX_INT then Some(n) else None
  }

  function Itoa(n: int): string {
    if n < 0 then ['-'] + Digits(-n) else Digits(n)
  }

  lemma {:induction false} ValueOfDigits(n: nat)
    ensures Value(Digits(n)) == n
  {
    var s := Digits(n);
    if n >= 10 {
      ValueOfDigits(n / 10);
      assert s[..|s| - 1] == Digits(n / 10);
    }
  }

  lemma {:induction false} AtoiOfDigits(digits: string, negative: bool)
    requires digits != "" && forall c | c in digits :: IsDigit(c)
    requires Value(digits) <= if negative then -MIN_INT else MAX_INT
    ensures Atoi(if negative then ['-'] + digits else digits) == Some(if negative then 0 - Value(digits) else Value(digits))
  {
    var s := if negative then ['-'] + digits else digits;
    assert negative ==> s[0] == '-' && s[1..] == digits;
    assert digits[0] in digits;
  }

  lemma {:induction false} AtoiOfItoa(n: int)
    requires MIN_INT <= n <= MAX_INT
    ensures Atoi(Itoa(n)) == Some(n)
  {
    var m: nat := if n < 0 then -n else n;
    ValueOfDigits(m);
    AtoiOfDigits(Digits(m), n < 0);
  }

  lemma {:induction false} ItoaIsWord(n: int)
    ensures IsWord(Itoa(n)) && ':' !in Itoa(n)
  {
    assert forall c | c in Itoa(n) :: IsDigit(c) || c == '-';
  }

  predicate AreDigits(s: string) {
    s != "" && forall i | 0 <= i < |s| :: '0' <= s[i] <= '9'
  }

  lemma {:induction false} AreDigitsIff(s: string)
    ensures AreDigits(s) <==> s != "" && forall c | c in s :: IsDigit(c)
  {
    assert forall i | 0 <= i < |s| :: s[i] in s;
  }

  /** A number is read digit by digit, as long as it fits 64 bits. */
  lemma {:induction false} AtoiDigit(s: string, c: char)
    requires '0' <= c <= '9'
    ensures Atoi([c]) == Some(c as int - '0' as int)
    ensures AreDigits(s) && Atoi(s).Some? ==>
              var n := 10 * Atoi(s).value + (c as int - '0' as int);
              Atoi(s + [c]) == if n <= 0x7fff_ffff_ffff_ffff then Some(n) else None
    ensures AreDigits(s) && Atoi(s).None? ==> Atoi(s + [c]).None?
  {
    assert Value([c][..0]) == 0 && [c][..0] == "";
    if AreDigits(s) {
      assert (s + [c])[..|s|] == s;
      assert forall d | d in s + [c] :: IsDigit(d);
      assert s[0] in s && (s + [c])[0] == s[0];
    }
  }

  /** One sign may stand before the digits, and nothing else may; the one number that fits only with a
      minus is the lowest. */
  lemma {:induction false} AtoiSign(sign: char, s: string)
    requires sign == '+' || sign == '-'
    ensures Atoi([sign] + s).Some? ==> AreDigits(s)
    ensures AreDigits(s) && Atoi(s).Some? ==> Atoi([sign] + s) == Some(if sign == '-' then -Atoi(s).value else Atoi(s).value)
    ensures AreDigits(s) && Atoi(s).None? && Atoi([sign] + s).Some? ==> sign == '-' && Atoi([sign] + s).value == -0x8000_0000_0000_0000
  {
    assert ([sign] + s)[1..] == s;
    AreDigitsIff(s);
    assert AreDigits(s) ==> s[0] in s;
  }

  lemma {:induction false} AtoiRefuses(s: string)
    requires Atoi(s).Some?
    ensures AreDigits(s) || (s != "" && (s[0] == '+' || s[0] == '-') && AreDigits(s[1..]))
  {
    AreDigitsIff(s);
    if s != "" {
      AreDigitsIff(s[1..]);
    }
  }
}
