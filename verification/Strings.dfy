/** Python's string trimming and ASCII case, as far as the modules need them. */
module Strings {
  predicate IsSpace(c: char) {
    || '\t' <= c <= '\r' || '\U{1c}' <= c <= ' ' || c == '\U{85}' || c == '\U{a0}' || c == '\U{1680}'
    || '\U{2000}' <= c <= '\U{200a}' || c in "\U{2028}\U{2029}\U{202f}\U{205f}\U{3000}"
  }

  predicate IsDigit(c: char) {
    '0' <= c <= '9'
  }

  function DropSpaces(s: string): string {
    if s != "" && IsSpace(s[0]) then DropSpaces(s[1..]) else s
  }

  function DropLastSpaces(s: string): string {
    if s != "" && IsSpace(s[|s| - 1]) then DropLastSpaces(s[..|s| - 1]) else s
  }

  function Strip(s: string): string {
    DropLastSpaces(DropSpaces(s))
  }

  function Lower(s: string): (r: string)
    ensures |r| == |s|
  {
    if s == "" then "" else [if 'A' <= s[0] <= 'Z' then s[0] + 32 as char else s[0]] + Lower(s[1..])
  }

  function Number(s: string): (n: nat)
    requires forall i :: 0 <= i < |s| ==> IsDigit(s[i])
  {
    if s == "" then 0 else
    assert IsDigit(s[|s| - 1]);
    10 * Number(s[..|s| - 1]) + (s[|s| - 1] - '0') as nat
  }

  lemma StripNothing(s: string)
    requires s != "" ==> !IsSpace(s[0]) && !IsSpace(s[|s| - 1])
    ensures Strip(s) == s
  {
  }

  lemma {:induction false} DropSpacesEnds(s: string)
    ensures DropSpaces(s) != "" ==> !IsSpace(DropSpaces(s)[0])
  {
    if s != "" && IsSpace(s[0]) {
      DropSpacesEnds(s[1..]);
    }
  }

  lemma {:induction false} DropLastSpacesEnds(s: string)
    ensures var r := DropLastSpaces(s); r != "" ==> !IsSpace(r[|r| - 1]) && r[0] == s[0] && s != ""
  {
    if s != "" && IsSpace(s[|s| - 1]) {
      DropLastSpacesEnds(s[..|s| - 1]);
    }
  }

  lemma StripTwice(s: string)
    ensures Strip(Strip(s)) == Strip(s)
  {
    DropSpacesEnds(s);
    DropLastSpacesEnds(DropSpaces(s));
    StripNothing(Strip(s));
  }

  lemma {:induction false} PlainLower(s: string)
    requires forall i :: 0 <= i < |s| ==> !('A' <= s[i] <= 'Z')
    ensures Lower(s) == s
  {
    if s != "" {
      PlainLower(s[1..]);
    }
  }

  predicate AllSpaces(s: string) {
    forall i :: 0 <= i < |s| ==> IsSpace(s[i])
  }

  /** The other case of an ASCII letter. */
  predicate CasePair(a: char, b: char) {
    a == b || ('A' <= a <= 'Z' && b as int == a as int + 32) || ('A' <= b <= 'Z' && a as int == b as int + 32)
  }

  predicate SameButCase(a: string, b: string) {
    |a| == |b| && forall i :: 0 <= i < |a| ==> CasePair(a[i], b[i])
  }

  lemma {:induction false} LowerConcat(a: string, b: string)
    ensures Lower(a + b) == Lower(a) + Lower(b)
  {
    if a == "" {
      assert a + b == b;
    } else {
      assert (a + b)[1..] == a[1..] + b;
      LowerConcat(a[1..], b);
    }
  }

  lemma LowerPadded(before: string, s: string, after: string)
    requires AllSpaces(before) && AllSpaces(after)
    ensures Lower(before + s + after) == before + Lower(s) + after
  {
    LowerConcat(before + s, after);
    LowerConcat(before, s);
    SpacesLower(before);
    SpacesLower(after);
  }

  lemma SpacesLower(s: string)
    requires AllSpaces(s)
    ensures Lower(s) == s
  {
    forall i | 0 <= i < |s| ensures !('A' <= s[i] <= 'Z') {
      assert IsSpace(s[i]);
    }
    PlainLower(s);
  }

  lemma {:induction false} LowerSame(a: string, b: string)
    requires SameButCase(a, b)
    ensures Lower(a) == Lower(b)
  {
    if a != "" {
      assert CasePair(a[0], b[0]);
      LowerSame(a[1..], b[1..]);
    }
  }

  lemma {:induction false} DropSpacesAfter(spaces: string, s: string)
    requires AllSpaces(spaces)
    ensures DropSpaces(spaces + s) == DropSpaces(s)
  {
    if spaces == "" {
      assert spaces + s == s;
    } else {
      assert (spaces + s)[1..] == spaces[1..] + s;
      DropSpacesAfter(spaces[1..], s);
    }
  }

  lemma {:induction false} DropLastSpacesBefore(s: string, spaces: string)
    requires AllSpaces(spaces)
    ensures DropLastSpaces(s + spaces) == DropLastSpaces(s)
  {
    if spaces == "" {
      assert s + spaces == s;
    } else {
      assert (s + spaces)[..|s + spaces| - 1] == s + spaces[..|spaces| - 1];
      DropLastSpacesBefore(s, spaces[..|spaces| - 1]);
    }
  }

  /** Dropping leading spaces leaves what follows the text alone, unless the text is all spaces. */
  lemma {:induction false} DropSpacesThen(s: string, spaces: string)
    requires AllSpaces(spaces)
    ensures DropLastSpaces(DropSpaces(s + spaces)) == DropLastSpaces(DropSpaces(s))
  {
    if s == "" {
      assert s + spaces == spaces + "";
      DropSpacesAfter(spaces, "");
    } else if IsSpace(s[0]) {
      assert (s + spaces)[1..] == s[1..] + spaces;
      DropSpacesThen(s[1..], spaces);
    } else {
      DropLastSpacesBefore(s, spaces);
    }
  }

  lemma StripPadded(before: string, s: string, after: string)
    requires AllSpaces(before) && AllSpaces(after)
    ensures Strip(before + s + after) == Strip(s)
  {
    assert before + s + after == before + (s + after);
    DropSpacesAfter(before, s + after);
    DropSpacesThen(s, after);
  }

  /** Spaces around a text and the case of its letters make no difference once it is lowered and trimmed. */
  lemma FoldIgnores(before: string, s: string, after: string, again: string)
    requires AllSpaces(before) && AllSpaces(after) && SameButCase(s, again)
    ensures Strip(Lower(before + again + after)) == Strip(Lower(s))
  {
    LowerPadded(before, again, after);
    LowerSame(s, again);
    StripPadded(before, Lower(s), after);
  }

  /** Trimming first or last makes no difference. */
  lemma LowerStrips(s: string)
    ensures Lower(Strip(s)) == Strip(Lower(s))
  {
    LowerDrops(s);
    LowerDropsLast(DropSpaces(s));
  }

  lemma {:induction false} LowerDrops(s: string)
    ensures Lower(DropSpaces(s)) == DropSpaces(Lower(s))
  {
    if s != "" && IsSpace(s[0]) {
      LowerDrops(s[1..]);
    }
  }

  lemma {:induction false} LowerDropsLast(s: string)
    ensures Lower(DropLastSpaces(s)) == DropLastSpaces(Lower(s))
  {
    if s != "" {
      var rest, last := s[..|s| - 1], s[|s| - 1..];
      assert s == rest + last;
      LowerConcat(rest, last);
      assert Lower(s)[|s| - 1] == Lower(last)[0] && Lower(s)[..|s| - 1] == Lower(rest);
      if IsSpace(s[|s| - 1]) {
        LowerDropsLast(rest);
      }
    }
  }

  // --- what trimming and reading numbers mean ---

  /** The text is this word, in whatever case, with spaces around it or not. */
  ghost predicate Spells(s: string, word: string) {
    exists before, again, after :: Padded(s, before, again, after) && SameButCase(word, again)
  }

  predicate Padded(s: string, before: string, middle: string, after: string) {
    s == before + middle + after && AllSpaces(before) && AllSpaces(after)
  }

  lemma {:induction false} DropSpacesSplits(s: string) returns (before: string)
    ensures s == before + DropSpaces(s) && AllSpaces(before)
  {
    before := "";
    if s != "" && IsSpace(s[0]) {
      var rest := DropSpacesSplits(s[1..]);
      before := [s[0]] + rest;
      assert s == [s[0]] + s[1..];
    }
  }

  lemma {:induction false} DropLastSpacesSplits(s: string) returns (after: string)
    ensures s == DropLastSpaces(s) + after && AllSpaces(after)
  {
    after := "";
    if s != "" && IsSpace(s[|s| - 1]) {
      var rest := DropLastSpacesSplits(s[..|s| - 1]);
      after := rest + [s[|s| - 1]];
      assert s == s[..|s| - 1] + [s[|s| - 1]];
    }
  }

  lemma {:induction false} LowerBack(s: string, i: nat)
    requires i < |s|
    ensures CasePair(Lower(s)[i], s[i])
  {
    if i > 0 {
      LowerBack(s[1..], i - 1);
    }
  }

  /** A text trims and lowers to a plain word exactly when it spells it. */
  lemma SpellsExactly(s: string, word: string)
    requires IsPlain(word)
    ensures Lower(Strip(s)) == word <==> Spells(s, word)
  {
    if Lower(Strip(s)) == word {
      TrimmedSpells(s);
      assert Spells(s, Lower(Strip(s)));
    }
    if before, again, after :| Padded(s, before, again, after) && SameButCase(word, again) {
      LowerStrips(s);
      FoldIgnores(before, word, after, again);
      PlainIsTrimmed(word);
    }
  }

  lemma TrimmedSpells(s: string)
    ensures Spells(s, Lower(Strip(s)))
  {
    var before := DropSpacesSplits(s);
    var after := DropLastSpacesSplits(DropSpaces(s));
    var word := Lower(Strip(s));
    assert s == before + Strip(s) + after;
    forall i | 0 <= i < |word| ensures CasePair(word[i], Strip(s)[i]) {
      LowerBack(Strip(s), i);
    }
    assert Padded(s, before, Strip(s), after) && SameButCase(word, Strip(s));
  }

  predicate IsPlain(word: string) {
    forall i :: 0 <= i < |word| ==> 'a' <= word[i] <= 'z'
  }

  lemma PlainIsTrimmed(word: string)
    requires IsPlain(word)
    ensures Strip(Lower(word)) == word
  {
    PlainIsLower(word);
    PlainIsStripped(word);
  }

  lemma PlainIsLower(word: string)
    requires IsPlain(word)
    ensures Lower(word) == word
  {
    PlainLower(word);
  }

  lemma PlainIsStripped(word: string)
    requires IsPlain(word)
    ensures Strip(word) == word
  {
    if word != "" {
      LetterIsNoSpace(word[0]);
      LetterIsNoSpace(word[|word| - 1]);
      StripNothing(word);
    }
  }

  lemma LetterIsNoSpace(c: char)
    requires 'a' <= c <= 'z'
    ensures !IsSpace(c)
  {
  }

  /** A number in decimal digits, without leading zeros. */
  function Decimal(n: nat): string {
    if n < 10 then [('0' as int + n) as char] else Decimal(n / 10) + [('0' as int + n % 10) as char]
  }

  lemma {:induction false} DecimalDigits(n: nat)
    ensures Decimal(n) != "" && forall i :: 0 <= i < |Decimal(n)| ==> IsDigit(Decimal(n)[i])
  {
    if n >= 10 {
      DecimalDigits(n / 10);
    }
  }

  lemma {:induction false} NumberReads(n: nat)
    ensures forall i :: 0 <= i < |Decimal(n)| ==> IsDigit(Decimal(n)[i])
    ensures Number(Decimal(n)) == n
  {
    DecimalDigits(n);
    if n >= 10 {
      NumberReads(n / 10);
      assert Decimal(n)[..|Decimal(n)| - 1] == Decimal(n / 10);
    } else {
      assert Decimal(n)[..0] == "";
    }
  }

  /** Nothing is left of a text exactly when it is all spaces. */
  lemma StripsToNothing(s: string)
    ensures Strip(s) == "" <==> AllSpaces(s)
  {
    if Strip(s) == "" {
      var before := DropSpacesSplits(s);
      var after := DropLastSpacesSplits(DropSpaces(s));
      assert s == before + after;
    }
    if AllSpaces(s) {
      DropSpacesAfter(s, "");
      assert s + "" == s;
    }
  }
}
