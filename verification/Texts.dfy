/** Substrings, lower case and joined lines, for the keyword and path guardrails. */
module Texts {

  predicate FoundAt(text: string, word: string, i: nat) {
    i + |word| <= |text| && text[i..i + |word|] == word
  }

  /** Python's `word in text`. */
  predicate Contains(text: string, word: string) {
    exists i :: 0 <= i <= |text| && FoundAt(text, word, i)
  }

  /** `str.lower`, for the ASCII letters. */
  function LowerChar(c: char): char {
    if 'A' <= c <= 'Z' then ((c as int) + 32) as char else c
  }

  function Lower(text: string): (r: string)
    ensures |r| == |text| && forall i :: 0 <= i < |r| ==> r[i] == LowerChar(text[i])
  {
    seq(|text|, i requires 0 <= i < |text| => LowerChar(text[i]))
  }

  /** "\n".join(lines) */
  function Join(lines: seq<string>): string {
    if lines == [] then "" else if |lines| == 1 then lines[0] else lines[0] + "\n" + Join(lines[1..])
  }

  /** The k-th capital becomes the k-th small letter. */
  lemma CapitalsAreLowered(k: nat)
    requires k < 26
    ensures Lower([('A' as int + k) as char]) == [('a' as int + k) as char]
  {}

  /** Everything else stays as it is: what lies next to the capitals, small letters and digits. */
  lemma OthersStay(text: string)
    requires forall i :: 0 <= i < |text| ==> text[i] <= '@' || '[' <= text[i]
    ensures Lower(text) == text
  {}

  ghost predicate Cuts(text: string, before: string, word: string, after: string) {
    text == before + word + after
  }

  /** A text contains a word exactly if the word can be cut out of it. */
  lemma ContainsIff(text: string, word: string)
    ensures Contains(text, word) <==> exists before, after :: Cuts(text, before, word, after)
  {
    if i :| 0 <= i <= |text| && FoundAt(text, word, i) {
      assert text == text[..i] + text[i..i + |word|] + text[i + |word|..];
      assert Cuts(text, text[..i], word, text[i + |word|..]);
    }
    if before, after :| Cuts(text, before, word, after) {
      ContainsPart(before, word, after);
    }
  }

  /** What a text lacks none of its words has. */
  lemma LacksChar(text: string, word: string, k: nat)
    requires k < |word| && word[k] !in text
    ensures !Contains(text, word)
  {
    forall i | 0 <= i <= |text| ensures !FoundAt(text, word, i) {
      if i + |word| <= |text| {
        assert text[i + k] in text && text[i..i + |word|][k] == text[i + k];
      }
    }
  }

  // ---- numbers in texts ----

  function Decimal(n: nat): string {
    (if n < 10 then "" else Decimal(n / 10)) + [(n % 10 + '0' as int) as char]
  }

  predicate IsDigit(c: char) { '0' <= c <= '9' }

  /** What the digits stand for. */
  function Numeral(s: string): int {
    if s == "" then 0 else Numeral(s[..|s| - 1]) * 10 + (s[|s| - 1] as int - '0' as int)
  }

  /** Digits alone, without leading zeros, that stand for n. */
  lemma {:induction false} DecimalIsNumeral(n: nat)
    ensures Numeral(Decimal(n)) == n && (forall i :: 0 <= i < |Decimal(n)| ==> IsDigit(Decimal(n)[i]))
    ensures |Decimal(n)| >= 1 && (Decimal(n)[0] == '0' ==> n == 0)
  {
    var s := Decimal(n);
    if n >= 10 {
      DecimalIsNumeral(n / 10);
      assert s[..|s| - 1] == Decimal(n / 10);
    } else {
      assert s[..0] == "";
    }
  }

  // ---- lines ----

  /** The lines of a text. */
  function Lines(text: string): (lines: seq<string>)
    ensures |lines| >= 1
  {
    if text == "" then [""]
    else
      var rest := Lines(text[1..]);
      if text[0] == '\n' then [""] + rest else [[text[0]] + rest[0]] + rest[1..]
  }

  lemma {:induction false} OneLine(line: string)
    requires '\n' !in line
    ensures Lines(line) == [line]
  {
    if line != "" {
      assert line[0] in line;
      OneLine(line[1..]);
      assert line == [line[0]] + line[1..];
    }
  }

  lemma {:induction false} LinesAfter(line: string, rest: string)
    requires '\n' !in line
    ensures Lines(line + "\n" + rest) == [line] + Lines(rest)
  {
    var text := line + "\n" + rest;
    if line == "" {
      assert text == "\n" + rest && text[1..] == rest;
    } else {
      assert line[0] in line;
      LinesAfter(line[1..], rest);
      assert line == [line[0]] + line[1..];
      assert text[0] == line[0] && text[1..] == line[1..] + "\n" + rest;
    }
  }

  /** Joined lines are those lines again. */
  lemma {:induction false} JoinedLines(lines: seq<string>)
    requires lines != [] && forall i :: 0 <= i < |lines| ==> '\n' !in lines[i]
    ensures Lines(Join(lines)) == lines
  {
    if |lines| == 1 {
      OneLine(lines[0]);
    } else {
      JoinedLines(lines[1..]);
      LinesAfter(lines[0], Join(lines[1..]));
    }
  }

  lemma ContainsPart(before: string, word: string, after: string)
    ensures Contains(before + word + after, word)
  {
    assert FoundAt(before + word + after, word, |before|);
  }

  lemma ContainsTransitive(text: string, part: string, word: string)
    requires Contains(text, part) && Contains(part, word)
    ensures Contains(text, word)
  {
    var i :| 0 <= i <= |text| && FoundAt(text, part, i);
    var j :| 0 <= j <= |part| && FoundAt(part, word, j);
    forall k | 0 <= k < |word| ensures text[i + j + k] == word[k] {
      assert text[i..i + |part|][j + k] == part[j + k];
      assert part[j..j + |word|][k] == word[k];
    }
    assert text[i + j..i + j + |word|] == word;
    assert FoundAt(text, word, i + j);
  }

  lemma LowerContains(text: string, part: string)
    requires Contains(text, part)
    ensures Contains(Lower(text), Lower(part))
  {
    var i :| 0 <= i <= |text| && FoundAt(text, part, i);
    forall k | 0 <= k < |part| ensures Lower(text)[i + k] == Lower(part)[k] {
      assert text[i + k] == text[i..i + |part|][k];
    }
    assert Lower(text)[i..i + |part|] == Lower(part);
    assert FoundAt(Lower(text), Lower(part), i);
  }

  lemma {:induction false} JoinContains(lines: seq<string>, i: nat)
    requires i < |lines|
    ensures Contains(Join(lines), lines[i])
  {
    if |lines| == 1 {
      ContainsPart("", lines[0], "");
      assert "" + lines[0] + "" == lines[0];
    } else if i == 0 {
      ContainsPart("", lines[0], "\n" + Join(lines[1..]));
      assert "" + lines[0] + ("\n" + Join(lines[1..])) == Join(lines);
    } else {
      JoinContains(lines[1..], i - 1);
      ContainsPart(lines[0] + "\n", Join(lines[1..]), "");
      assert (lines[0] + "\n") + Join(lines[1..]) + "" == Join(lines);
      ContainsTransitive(Join(lines), Join(lines[1..]), lines[i]);
    }
  }

  lemma LowerAppend(a: string, b: string)
    ensures Lower(a + b) == Lower(a) + Lower(b)
  {}

  lemma FoundChar(text: string, word: string, i: nat, k: nat)
    requires FoundAt(text, word, i) && k < |word|
    ensures text[i + k] == word[k] && text[i + k] in word
  {
    assert text[i..i + |word|][k] == text[i + k];
  }

  /** An occurrence does not span a character that the word does not have. */
  lemma NotAcross(text: string, word: string, i: nat, n: nat)
    requires FoundAt(text, word, i) && n < |text| && text[n] !in word
    ensures n < i || i + |word| <= n
  {
    if i <= n < i + |word| {
      FoundChar(text, word, i, n - i);
    }
  }

  lemma FoundInPart(text: string, word: string, i: nat, start: nat, part: string)
    requires FoundAt(text, word, i) && start + |part| <= |text| && text[start..start + |part|] == part
    requires start <= i && i + |word| <= start + |part|
    ensures Contains(part, word)
  {
    var k := i - start;
    forall j | 0 <= j < |word| ensures part[k + j] == word[j] {
      FoundChar(text, word, i, j);
      assert text[start..start + |part|][k + j] == text[i + j];
    }
    assert part[k..k + |word|] == word;
    assert FoundAt(part, word, k);
  }

  /** A word without newline does not reach across one. */
  lemma NewlineParts(a: string, b: string, word: string)
    requires '\n' !in word
    ensures Contains(a + "\n" + b, word) <==> Contains(a, word) || Contains(b, word)
  {
    var text := a + "\n" + b;
    if Contains(text, word) {
      var i :| 0 <= i <= |text| && FoundAt(text, word, i);
      NotAcross(text, word, i, |a|);
      if i + |word| <= |a| {
        FoundInPart(text, word, i, 0, a);
      } else {
        FoundInPart(text, word, i, |a| + 1, b);
      }
    }
    if Contains(a, word) {
      ContainsPart("", a, "\n" + b);
      assert "" + a + ("\n" + b) == text;
      ContainsTransitive(text, a, word);
    }
    if Contains(b, word) {
      ContainsPart(a + "\n", b, "");
      assert (a + "\n") + b + "" == text;
      ContainsTransitive(text, b, word);
    }
  }

  predicate SomeLineContains(lines: seq<string>, word: string) {
    exists i :: 0 <= i < |lines| && Contains(Lower(lines[i]), word)
  }

  /** Joined lines contain such a word, in lower case, exactly if one of them does. */
  lemma {:induction false} JoinContainsIff(lines: seq<string>, word: string)
    requires lines != [] && '\n' !in word
    ensures Contains(Lower(Join(lines)), word) <==> SomeLineContains(lines, word)
  {
    if |lines| > 1 {
      var rest := lines[1..];
      JoinContainsIff(rest, word);
      LowerAppend(lines[0], "\n");
      LowerAppend(lines[0] + "\n", Join(rest));
      assert Lower("\n") == "\n";
      NewlineParts(Lower(lines[0]), Lower(Join(rest)), word);
      if SomeLineContains(rest, word) {
        var i :| 0 <= i < |rest| && Contains(Lower(rest[i]), word);
        assert lines[i + 1] == rest[i];
      }
      if i :| 1 <= i < |lines| && Contains(Lower(lines[i]), word) {
        assert rest[i - 1] == lines[i];
      }
    }
  }
}
