/** Text as the label files use it: lines, words, and decimal numbers. */
module LabelText {
  import opened DigitText
  import opened Wrappers

  // ---------- Lines ----------

  // Where splitlines breaks, once reading the file has turned every "\r\n" and "\r" into "\n".
  predicate IsBreak(c: char) {
    c in "\n\r\U{000B}\U{000C}\U{001C}\U{001D}\U{001E}\U{0085}\U{2028}\U{2029}"
  }

  predicate IsSpace(c: char) {
    c in " \t\U{001F}\U{00A0}\U{1680}\U{202F}\U{205F}\U{3000}" || '\U{2000}' <= c <= '\U{200A}' || IsBreak(c)
  }

  predicate OneLine(s: string) {
    forall i :: 0 <= i < |s| ==> !IsBreak(s[i])
  }

  function LineEnd(text: string): (n: nat)
    ensures n <= |text| && OneLine(text[..n]) && (n < |text| ==> IsBreak(text[n]))
  {
    if text == "" || IsBreak(text[0]) then 0 else
      assert text[..1 + LineEnd(text[1..])] == [text[0]] + text[1..][..LineEnd(text[1..])];
      1 + LineEnd(text[1..])
  }

  // splitlines: no empty line after a final break.
  function Lines(text: string): (lines: seq<string>)
    ensures forall i :: 0 <= i < |lines| ==> OneLine(lines[i])
    decreases |text|
  {
    if text == "" then []
    else if LineEnd(text) == |text| then [text]
    else [text[..LineEnd(text)]] + Lines(text[LineEnd(text) + 1..])
  }

  // The lines joined by "\n", with a final "\n" when there is any line.
  function Unlines(lines: seq<string>): string {
    if lines == [] then "" else lines[0] + "\n" + Unlines(lines[1..])
  }

  lemma {:induction false} LineEndOf(line: string, rest: string)
    requires OneLine(line)
    ensures LineEnd(line + "\n" + rest) == |line|
  {
    var text := line + "\n" + rest;
    if line != "" {
      assert text[1..] == line[1..] + "\n" + rest;
      LineEndOf(line[1..], rest);
    }
  }

  // What is written line by line is read back line by line.
  lemma {:induction false} LinesOfUnlines(lines: seq<string>)
    requires forall i :: 0 <= i < |lines| ==> OneLine(lines[i])
    ensures Lines(Unlines(lines)) == lines
  {
    if lines == [] {
    } else {
      var rest := Unlines(lines[1..]);
      var text := lines[0] + "\n" + rest;
      LineEndOf(lines[0], rest);
      LinesOfUnlines(lines[1..]);
      assert text[..|lines[0]|] == lines[0] && text[|lines[0]| + 1..] == rest;
    }
  }

  // ---------- Words ----------

  function WordEnd(s: string): (n: nat)
    ensures n <= |s| && (forall i :: 0 <= i < n ==> !IsSpace(s[i])) && (n < |s| ==> IsSpace(s[n]))
  {
    if s == "" || IsSpace(s[0]) then 0 else 1 + WordEnd(s[1..])
  }

  // split(): the runs of characters between white space.
  function Words(s: string): seq<string>
    decreases |s|
  {
    if s == "" then []
    else if IsSpace(s[0]) then Words(s[1..])
    else [s[..WordEnd(s)]] + Words(s[WordEnd(s)..])
  }

  predicate IsWord(s: string) {
    s != "" && forall i :: 0 <= i < |s| ==> !IsSpace(s[i])
  }

  lemma {:induction false} WordEndOf(word: string, rest: string)
    requires forall i :: 0 <= i < |word| ==> !IsSpace(word[i])
    requires rest == "" || IsSpace(rest[0])
    ensures WordEnd(word + rest) == |word|
  {
    if word == "" {
      assert word + rest == rest;
    } else {
      assert (word + rest)[1..] == word[1..] + rest;
      WordEndOf(word[1..], rest);
    }
  }

  lemma {:induction false} FirstWord(word: string, rest: string)
    requires IsWord(word) && (rest == "" || IsSpace(rest[0]))
    ensures Words(word + rest) == [word] + Words(rest)
  {
    WordEndOf(word, rest);
    assert (word + rest)[0] == word[0];
    assert (word + rest)[..|word|] == word && (word + rest)[|word|..] == rest;
  }

  // strip() leaves nothing exactly when split() does.
  predicate Blank(s: string) {
    Words(s) == []
  }

  // ---------- Decimal numbers ----------

  function DigitChar(d: nat): char
    requires d < 10
  {
    "0123456789"[d]
  }

  function Pow10(n: nat): (p: nat)
    ensures p > 0
  {
    if n == 0 then 1 else 10 * Pow10(n - 1)
  }

  // `n` digits of `m`, padded with zeros.
  function Digits(m: nat, n: nat): (s: string)
    ensures |s| == n && AllDigits(s)
  {
    if n == 0 then "" else Digits(m / 10, n - 1) + [DigitChar(m % 10)]
  }

  function DigitsValue(s: string): nat
    requires AllDigits(s)
  {
    if s == "" then 0 else 10 * DigitsValue(s[..|s| - 1]) + (s[|s| - 1] as int - '0' as int)
  }

  lemma DigitValue(d: nat)
    requires d < 10
    ensures DigitChar(d) as int - '0' as int == d
  {
  }

  lemma {:induction false} ValueOfOneMore(s: string, d: nat)
    requires AllDigits(s) && d < 10
    ensures AllDigits(s + [DigitChar(d)]) && DigitsValue(s + [DigitChar(d)]) == 10 * DigitsValue(s) + d
  {
    DigitValue(d);
    assert (s + [DigitChar(d)])[..|s|] == s;
  }

  lemma TenthBelow(m: nat, n: nat)
    requires n > 0 && m < Pow10(n)
    ensures m / 10 < Pow10(n - 1) && m == 10 * (m / 10) + m % 10
  {
  }

  lemma {:induction false} DigitsRoundTrip(m: nat, n: nat)
    requires m < Pow10(n)
    ensures DigitsValue(Digits(m, n)) == m
  {
    if n == 0 {
    } else {
      TenthBelow(m, n);
      DigitsRoundTrip(m / 10, n - 1);
      ValueOfOneMore(Digits(m / 10, n - 1), m % 10);
    }
  }

  // A number from 0 to 1 in millionths, with six decimals.
  function Print6(micros: nat): (s: string)
    ensures |s| == 8 && s[1] == '.' && AllDigits(s[..1]) && AllDigits(s[2..])
  {
    Digits(micros / 1000000, 1) + "." + Digits(micros % 1000000, 6)
  }

  // float() of a word: digits, a point and digits are read as written; what it makes of any other
  // word, including refusing it, is `other`.
  function ReadNumber(word: string, other: string -> Option<real>): Option<real> {
    if |word| > 2 && IsDigit(word[0]) && word[1] == '.' && AllDigits(word[2..])
    then Some(DigitsValue(word[..1]) as real + DigitsValue(word[2..]) as real / Pow10(|word| - 2) as real)
    else other(word)
  }

  lemma PrintedIsWord(micros: nat)
    ensures IsWord(Print6(micros))
  {
    var s := Print6(micros);
    forall i | 0 <= i < |s| ensures !IsSpace(s[i]) {
      if i >= 2 {
        assert s[i] == s[2..][i - 2];
      } else if i == 0 {
        assert s[i] == s[..1][i];
      }
    }
  }

  lemma WholeAndPart(micros: nat)
    ensures (micros / 1000000) as real + (micros % 1000000) as real / 1000000.0 == micros as real / 1000000.0
  {
    assert micros == 1000000 * (micros / 1000000) + micros % 1000000;
    assert micros as real == 1000000.0 * (micros / 1000000) as real + (micros % 1000000) as real;
  }

  lemma TimesTen(n: nat)
    ensures Pow10(n + 1) == 10 * Pow10(n)
  {
  }

  lemma PowersOfTen()
    ensures Pow10(1) == 10 && Pow10(6) == 1000000
  {
    TimesTen(0);
    TimesTen(1);
    TimesTen(2);
    TimesTen(3);
    TimesTen(4);
    TimesTen(5);
  }

  // What Print6 prints is read back as the same number of millionths.
  lemma PrintedIsRead(micros: nat, other: string -> Option<real>)
    requires micros <= 1000000
    ensures ReadNumber(Print6(micros), other) == Some(micros as real / 1000000.0)
  {
    var whole, part := micros / 1000000, micros % 1000000;
    var s := Print6(micros);
    PowersOfTen();
    DigitsRoundTrip(whole, 1);
    DigitsRoundTrip(part, 6);
    WholeAndPart(micros);
    assert s[..1] == Digits(whole, 1) && s[2..] == Digits(part, 6) && |s| - 2 == 6;
    assert DigitsValue(s[..1]) == whole && DigitsValue(s[2..]) == part;
    assert Pow10(|s| - 2) as real == 1000000.0;
    assert IsDigit(s[0]) by {
      assert s[0] == s[..1][0];
    }
  }
}
