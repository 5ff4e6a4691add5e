/** The workspace slug: the service's passes over the name, and the one-pass reading of them. */
module Slug {
  import opened Prelude

  const SLUG_SUFFIX := 7
  const MAX_SLUG_BASE := 100 - SLUG_SUFFIX

  /** Unicode White_Space, which trimming and field splitting go by. */
  predicate IsSpace(c: char) {
    || '\t' <= c <= '\r' || c == ' '
    || c == '\U{85}' || c == '\U{A0}' || c == '\U{1680}' || '\U{2000}' <= c <= '\U{200A}'
    || c == '\U{2028}' || c == '\U{2029}' || c == '\U{202F}' || c == '\U{205F}' || c == '\U{3000}'
  }

  predicate IsSlugLetter(c: char) {
    'a' <= c <= 'z' || '0' <= c <= '9'
  }

  predicate IsSlugChar(c: char) {
    IsSlugLetter(c) || c == '-'
  }

  /** Lower-casing is exact on ASCII; `other` is the Unicode table for everything else. */
  function LowerChar(other: char -> char, c: char): char {
    if 'A' <= c <= 'Z' then c + 32 as char
    else if c < '\U{80}' then c
    else other(c)
  }

  function ToLower(other: char -> char, s: string): string {
    if s == [] then [] else [LowerChar(other, s[0])] + ToLower(other, s[1..])
  }

  function TrimLeft(s: string, cut: char -> bool): string {
    if s != [] && cut(s[0]) then TrimLeft(s[1..], cut) else s
  }

  function TrimRight(s: string, cut: char -> bool): string {
    if s != [] && cut(s[|s| - 1]) then TrimRight(s[..|s| - 1], cut) else s
  }

  function Trim(s: string, cut: char -> bool): string {
    TrimRight(TrimLeft(s, cut), cut)
  }

  /** The longest prefix without white space. */
  function Word(s: string): (w: string)
    ensures |w| <= |s| && w == s[..|w|]
  {
    if s == [] || IsSpace(s[0]) then [] else [s[0]] + Word(s[1..])
  }

  /** The maximal runs of non-space characters. */
  function Fields(s: string): seq<string>
    decreases |s|
  {
    if s == [] then []
    else if IsSpace(s[0]) then Fields(s[1..])
    else [Word(s)] + Fields(s[|Word(s)|..])
  }

  function Join(words: seq<string>): string {
    if words == [] then []
    else if |words| == 1 then words[0]
    else words[0] + ['-'] + Join(words[1..])
  }

  function RemoveInvalid(s: string): string {
    if s == [] then []
    else if IsSlugChar(s[0]) then [s[0]] + RemoveInvalid(s[1..])
    else RemoveInvalid(s[1..])
  }

  /** Every run of two or more dashes becomes one. */
  function CollapseDashes(s: string): string {
    if s == [] then []
    else if s[0] == '-' && |s| > 1 && s[1] == '-' then CollapseDashes(s[1..])
    else [s[0]] + CollapseDashes(s[1..])
  }

  predicate IsDash(c: char) { c == '-' }

  /** The passes up to the length cut. */
  function Clean(other: char -> char, name: string): string {
    var lowered := ToLower(other, Trim(name, IsSpace));
    var joined := Join(Fields(lowered));
    var clean := RemoveInvalid(joined);
    var collapsed := CollapseDashes(clean);
    Trim(collapsed, IsDash)
  }

  function SlugBase(other: char -> char, name: string): string {
    var clean := Clean(other, name);
    if |clean| > MAX_SLUG_BASE then TrimRight(clean[..MAX_SLUG_BASE], IsDash) else clean
  }

  /** `random` is the six lower-cased random characters. */
  function GenerateSlug(other: char -> char, name: string, random: string): string {
    SlugBase(other, name) + ['-'] + random
  }

  // ----- the same text in one pass -----

  predicate Separates(c: char) {
    IsSpace(c) || c == '-'
  }

  /**
   * One pass: letters are kept, separators are remembered until the next letter and dropped at both ends,
   * anything else is skipped. `started` says whether a letter has been kept already.
   */
  function Scan(s: string, started: bool, pending: bool): string {
    if s == [] then []
    else if IsSlugLetter(s[0]) then (if started && pending then ['-', s[0]] else [s[0]]) + Scan(s[1..], true, false)
    else Scan(s[1..], started, pending || Separates(s[0]))
  }

  predicate NoDoubleDash(s: string) {
    forall i :: 0 < i < |s| ==> !(s[i - 1] == '-' && s[i] == '-')
  }

  /** No slug character is out of place: only slug characters, no doubled dash, no dash at either end. */
  predicate Normal(s: string) {
    && (forall i :: 0 <= i < |s| ==> IsSlugChar(s[i]))
    && NoDoubleDash(s)
    && (s != [] ==> s[0] != '-' && s[|s| - 1] != '-')
  }

  // ----- each pass leaves what the scanner reads unchanged -----

  lemma {:induction false} ScanDropsLeading(s: string, cut: char -> bool, pending: bool)
    requires forall c :: cut(c) ==> Separates(c)
    ensures Scan(TrimLeft(s, cut), false, pending) == Scan(s, false, pending)
    decreases |s|
  {
    if s != [] && cut(s[0]) {
      assert !IsSlugLetter(s[0]);
      ScanIgnoresPending(s[1..], pending, true);
      ScanIgnoresPending(TrimLeft(s[1..], cut), pending, true);
      ScanDropsLeading(s[1..], cut, true);
    }
  }

  lemma {:induction false} ScanIgnoresPending(s: string, p: bool, q: bool)
    ensures Scan(s, false, p) == Scan(s, false, q)
  {
    if s != [] && !IsSlugLetter(s[0]) {
      ScanIgnoresPending(s[1..], p || Separates(s[0]), q || Separates(s[0]));
    }
  }

  lemma {:induction false} ScanDropsTrailingOne(s: string, c: char, started: bool, pending: bool)
    requires !IsSlugLetter(c)
    ensures Scan(s + [c], started, pending) == Scan(s, started, pending)
  {
    if s == [] {
      assert ([c])[1..] == [];
    } else {
      assert (s + [c])[1..] == s[1..] + [c];
      if IsSlugLetter(s[0]) {
        ScanDropsTrailingOne(s[1..], c, true, false);
      } else {
        ScanDropsTrailingOne(s[1..], c, started, pending || Separates(s[0]));
      }
    }
  }

  lemma {:induction false} ScanDropsTrailing(s: string, cut: char -> bool, started: bool, pending: bool)
    requires forall c :: cut(c) ==> Separates(c)
    ensures Scan(TrimRight(s, cut), started, pending) == Scan(s, started, pending)
    decreases |s|
  {
    if s != [] && cut(s[|s| - 1]) {
      var front := s[..|s| - 1];
      assert s == front + [s[|s| - 1]];
      ScanDropsTrailingOne(front, s[|s| - 1], started, pending);
      ScanDropsTrailing(front, cut, started, pending);
    }
  }

  lemma ScanKeepsTrim(s: string, cut: char -> bool)
    requires forall c :: cut(c) ==> Separates(c)
    ensures Scan(Trim(s, cut), false, false) == Scan(s, false, false)
  {
    ScanDropsTrailing(TrimLeft(s, cut), cut, false, false);
    ScanDropsLeading(s, cut, false);
  }

  lemma {:induction false} ScanKeepsRemoval(s: string, started: bool, pending: bool)
    requires forall i :: 0 <= i < |s| ==> !IsSpace(s[i])
    ensures Scan(RemoveInvalid(s), started, pending) == Scan(s, started, pending)
  {
    if s != [] {
      if IsSlugLetter(s[0]) {
        ScanKeepsRemoval(s[1..], true, false);
      } else {
        ScanKeepsRemoval(s[1..], started, pending || Separates(s[0]));
      }
    }
  }

  lemma {:induction false} ScanKeepsCollapse(s: string, started: bool, pending: bool)
    ensures Scan(CollapseDashes(s), started, pending) == Scan(s, started, pending)
    decreases |s|
  {
    if s != [] {
      if s[0] == '-' && |s| > 1 && s[1] == '-' {
        DashesAreOne(s[1..], started, pending);
        ScanKeepsCollapse(s[1..], started, pending);
      } else if IsSlugLetter(s[0]) {
        ScanKeepsCollapse(s[1..], true, false);
      } else {
        ScanKeepsCollapse(s[1..], started, pending || Separates(s[0]));
      }
    }
  }

  lemma DashesAreOne(s: string, started: bool, pending: bool)
    requires s != [] && s[0] == '-'
    ensures Scan(s, started, true) == Scan(s, started, pending)
  {
  }

  /** What the scanner reads after a word, whatever separator follows. */
  lemma {:induction false} ScanAfterWord(w: string, rest: string, other: string, started: bool, pending: bool)
    requires forall st, p :: Scan(rest, st, p) == Scan(other, st, p)
    ensures Scan(w + rest, started, pending) == Scan(w + other, started, pending)
  {
    if w == [] {
      assert [] + rest == rest && [] + other == other;
    } else {
      assert (w + rest)[1..] == w[1..] + rest && (w + other)[1..] == w[1..] + other;
      if IsSlugLetter(w[0]) {
        ScanAfterWord(w[1..], rest, other, true, false);
      } else {
        ScanAfterWord(w[1..], rest, other, started, pending || Separates(w[0]));
      }
    }
  }

  /** Splitting into fields and joining with dashes, after at least one separator. */
  lemma {:induction false} ScanKeepsFields(s: string, started: bool)
    ensures Scan(Join(Fields(s)), started, true) == Scan(s, started, true)
    decreases |s|, 1
  {
    if s != [] {
      if IsSpace(s[0]) {
        assert !IsSlugLetter(s[0]);
        ScanKeepsFields(s[1..], started);
      } else {
        ScanKeepsWord(s, started, true);
      }
    }
  }

  lemma {:induction false} ScanKeepsWord(s: string, started: bool, pending: bool)
    requires s != [] && !IsSpace(s[0])
    ensures Scan(Join(Fields(s)), started, pending) == Scan(s, started, pending)
    decreases |s|, 0
  {
    var w := Word(s);
    var rest := s[|w|..];
    assert s == w + rest;
    WordEndsAtSpace(s);
    if Fields(rest) == [] {
      BlankHasNoFields(rest);
      forall st, p ensures Scan([], st, p) == Scan(rest, st, p) { BlankScansEmpty(rest, st, p); }
      ScanAfterWord(w, [], rest, started, pending);
      assert w + [] == w;
      assert Join(Fields(s)) == w;
    } else {
      forall st, p ensures Scan(['-'] + Join(Fields(rest)), st, p) == Scan(rest, st, p) {
        ScanKeepsFields(rest[1..], st);
        ScanKeepsSpace(rest, st, p);
      }
      ScanAfterWord(w, ['-'] + Join(Fields(rest)), rest, started, pending);
      JoinFirst(s);
    }
  }

  /** A space and the fields after it, or a dash and the same fields joined. */
  lemma ScanKeepsSpace(rest: string, started: bool, pending: bool)
    requires rest != [] && IsSpace(rest[0])
    requires Scan(Join(Fields(rest[1..])), started, true) == Scan(rest[1..], started, true)
    ensures Scan(['-'] + Join(Fields(rest)), started, pending) == Scan(rest, started, pending)
  {
    assert (['-'] + Join(Fields(rest)))[1..] == Join(Fields(rest));
    assert Fields(rest) == Fields(rest[1..]);
    assert !IsSlugLetter(rest[0]);
  }

  lemma JoinFirst(s: string)
    requires s != [] && !IsSpace(s[0]) && Fields(s[|Word(s)|..]) != []
    ensures Join(Fields(s)) == Word(s) + (['-'] + Join(Fields(s[|Word(s)|..])))
  {
    assert Fields(s)[1..] == Fields(s[|Word(s)|..]);
  }

  lemma {:induction false} WordEndsAtSpace(s: string)
    ensures |Word(s)| < |s| ==> IsSpace(s[|Word(s)|])
  {
    if s != [] && !IsSpace(s[0]) {
      WordEndsAtSpace(s[1..]);
    }
  }

  lemma {:induction false} BlankHasNoFields(s: string)
    requires Fields(s) == []
    ensures forall i :: 0 <= i < |s| ==> IsSpace(s[i])
  {
    if s != [] {
      BlankHasNoFields(s[1..]);
    }
  }

  lemma {:induction false} BlankScansEmpty(s: string, started: bool, pending: bool)
    requires forall i :: 0 <= i < |s| ==> IsSpace(s[i])
    ensures Scan(s, started, pending) == []
  {
    if s != [] {
      BlankScansEmpty(s[1..], started, true);
    }
  }

  // ----- what the passes produce is normal, and the scanner reads normal text as it is -----

  lemma {:induction false} JoinedHasNoSpace(s: string)
    ensures forall i :: 0 <= i < |Join(Fields(s))| ==> !IsSpace(Join(Fields(s))[i])
    decreases |s|
  {
    if s != [] {
      if IsSpace(s[0]) {
        JoinedHasNoSpace(s[1..]);
      } else {
        WordHasNoSpace(s);
        var rest := s[|Word(s)|..];
        JoinedHasNoSpace(rest);
        assert Fields(s)[1..] == Fields(rest);
      }
    }
  }

  lemma {:induction false} WordHasNoSpace(s: string)
    ensures forall i :: 0 <= i < |Word(s)| ==> !IsSpace(Word(s)[i])
  {
    if s != [] && !IsSpace(s[0]) {
      WordHasNoSpace(s[1..]);
    }
  }

  lemma {:induction false} RemovalLeavesSlugChars(s: string)
    ensures forall i :: 0 <= i < |RemoveInvalid(s)| ==> IsSlugChar(RemoveInvalid(s)[i])
  {
    if s != [] {
      RemovalLeavesSlugChars(s[1..]);
    }
  }

  lemma {:induction false} CollapseLeavesSingles(s: string)
    ensures NoDoubleDash(CollapseDashes(s))
    ensures s != [] ==> CollapseDashes(s) != [] && CollapseDashes(s)[0] == s[0]
    ensures (forall i :: 0 <= i < |s| ==> IsSlugChar(s[i])) ==>
              forall i :: 0 <= i < |CollapseDashes(s)| ==> IsSlugChar(CollapseDashes(s)[i])
  {
    if s != [] {
      CollapseLeavesSingles(s[1..]);
    }
  }

  /** A trim keeps a contiguous part whose ends are not cut. */
  lemma {:induction false} TrimRightIsPrefix(s: string, cut: char -> bool)
    ensures TrimRight(s, cut) <= s
    ensures TrimRight(s, cut) != [] ==> !cut(TrimRight(s, cut)[|TrimRight(s, cut)| - 1])
    decreases |s|
  {
    if s != [] && cut(s[|s| - 1]) {
      TrimRightIsPrefix(s[..|s| - 1], cut);
    }
  }

  lemma {:induction false} TrimLeftIsSuffix(s: string, cut: char -> bool)
    ensures |TrimLeft(s, cut)| <= |s| && TrimLeft(s, cut) == s[|s| - |TrimLeft(s, cut)|..]
    ensures TrimLeft(s, cut) != [] ==> !cut(TrimLeft(s, cut)[0])
  {
    if s != [] && cut(s[0]) {
      TrimLeftIsSuffix(s[1..], cut);
    }
  }

  lemma TrimmedIsNormal(s: string)
    requires NoDoubleDash(s) && forall i :: 0 <= i < |s| ==> IsSlugChar(s[i])
    ensures Normal(Trim(s, IsDash))
  {
    TrimLeftIsSuffix(s, IsDash);
    TrimRightIsPrefix(TrimLeft(s, IsDash), IsDash);
  }

  lemma CleanIsNormal(other: char -> char, name: string)
    ensures Normal(Clean(other, name))
  {
    var joined := Join(Fields(ToLower(other, Trim(name, IsSpace))));
    RemovalLeavesSlugChars(joined);
    CollapseLeavesSingles(RemoveInvalid(joined));
    TrimmedIsNormal(CollapseDashes(RemoveInvalid(joined)));
  }

  lemma BaseIsNormal(other: char -> char, name: string)
    ensures Normal(SlugBase(other, name)) && |SlugBase(other, name)| <= MAX_SLUG_BASE
  {
    var clean := Clean(other, name);
    CleanIsNormal(other, name);
    if |clean| > MAX_SLUG_BASE {
      TrimRightIsPrefix(clean[..MAX_SLUG_BASE], IsDash);
    }
  }

  /** A text with no doubled dash and no dash at its end, read from the middle. */
  predicate NormalTail(s: string) {
    && NoDoubleDash(s)
    && (forall i :: 0 <= i < |s| ==> IsSlugChar(s[i]))
    && (s != [] ==> s[|s| - 1] != '-')
  }

  lemma {:induction false} ScanFixesTail(s: string)
    requires NormalTail(s)
    ensures Scan(s, true, false) == s
    decreases |s|
  {
    if s != [] {
      if IsSlugLetter(s[0]) {
        ScanFixesTail(s[1..]);
      } else {
        assert s[0] == '-' && |s| > 1 && IsSlugLetter(s[1]);
        ScanFixesTail(s[2..]);
        assert s[1..][1..] == s[2..];
        assert s == ['-', s[1]] + s[2..];
      }
    }
  }

  lemma ScanFixesNormal(s: string)
    requires Normal(s)
    ensures Scan(s, false, false) == s
  {
    if s != [] {
      ScanFixesTail(s[1..]);
    }
  }

  // ----- main results -----

  /** The service's passes compute exactly the one-pass reading of the lower-cased name. */
  lemma CleanIsScan(other: char -> char, name: string)
    ensures Clean(other, name) == Scan(ToLower(other, Trim(name, IsSpace)), false, false)
  {
    var lowered := ToLower(other, Trim(name, IsSpace));
    var joined := Join(Fields(lowered));
    var removed := RemoveInvalid(joined);
    var collapsed := CollapseDashes(removed);
    ScanKeepsFields(lowered, false);
    ScanIgnoresPending(lowered, true, false);
    ScanIgnoresPending(joined, true, false);
    JoinedHasNoSpace(lowered);
    ScanKeepsRemoval(joined, false, false);
    ScanKeepsCollapse(removed, false, false);
    ScanKeepsTrim(collapsed, IsDash);
    CleanIsNormal(other, name);
    ScanFixesNormal(Clean(other, name));
  }

  lemma {:induction false} LowerKeepsSlugText(other: char -> char, s: string)
    requires forall i :: 0 <= i < |s| ==> IsSlugChar(s[i])
    ensures ToLower(other, s) == s
  {
    if s != [] {
      LowerKeepsSlugText(other, s[1..]);
    }
  }

  lemma TrimKeepsSlugText(s: string)
    requires forall i :: 0 <= i < |s| ==> IsSlugChar(s[i])
    ensures Trim(s, IsSpace) == s
  {
    assert s != [] ==> !IsSpace(s[0]) && !IsSpace(s[|s| - 1]);
  }

  /** Making a base out of a base changes nothing. */
  lemma BaseIsIdempotent(other: char -> char, name: string)
    ensures SlugBase(other, SlugBase(other, name)) == SlugBase(other, name)
  {
    var base := SlugBase(other, name);
    BaseIsNormal(other, name);
    CleanIsScan(other, base);
    TrimKeepsSlugText(base);
    LowerKeepsSlugText(other, base);
    ScanFixesNormal(base);
  }

  predicate IsRandomPart(random: string) {
    |random| == SLUG_SUFFIX - 1 && forall i :: 0 <= i < |random| ==> 'a' <= random[i] <= 'z' || '2' <= random[i] <= '7'
  }

  /** The slug fits its column, has only slug characters, no doubled dash, and never ends in a dash. */
  lemma SlugShape(other: char -> char, name: string, random: string)
    requires IsRandomPart(random)
    ensures var slug := GenerateSlug(other, name, random);
            && SLUG_SUFFIX <= |slug| <= 100
            && (forall i :: 0 <= i < |slug| ==> IsSlugChar(slug[i]))
            && NoDoubleDash(slug)
            && slug[|slug| - 1] != '-'
  {
    BaseIsNormal(other, name);
  }

  /** It begins with a dash exactly when the name has no letter or digit left once lower-cased. */
  lemma LeadingDashExactly(other: char -> char, name: string, random: string)
    requires IsRandomPart(random)
    ensures var lowered := ToLower(other, Trim(name, IsSpace));
            && (GenerateSlug(other, name, random)[0] == '-'
                <==> forall i :: 0 <= i < |lowered| ==> !IsSlugLetter(lowered[i]))
  {
    var lowered := ToLower(other, Trim(name, IsSpace));
    BaseIsNormal(other, name);
    CleanIsNormal(other, name);
    CleanIsScan(other, name);
    ScanEmptyExactly(lowered, false, false);
    var clean := Clean(other, name);
    if |clean| > MAX_SLUG_BASE {
      CutKeepsFirst(clean[..MAX_SLUG_BASE]);
    }
  }

  lemma {:induction false} CutKeepsFirst(s: string)
    requires s != [] && s[0] != '-'
    ensures TrimRight(s, IsDash) != []
    decreases |s|
  {
    if |s| > 1 {
      CutKeepsFirst(s[..|s| - 1]);
    }
  }

  lemma {:induction false} ScanEmptyExactly(s: string, started: bool, pending: bool)
    ensures Scan(s, started, pending) == [] <==> forall i :: 0 <= i < |s| ==> !IsSlugLetter(s[i])
  {
    if s != [] && !IsSlugLetter(s[0]) {
      ScanEmptyExactly(s[1..], started, pending || Separates(s[0]));
    }
  }

  /** For example the name `!!!`, whose base is empty. */
  lemma PunctuationHasLeadingDash(other: char -> char, random: string)
    requires IsRandomPart(random)
    ensures GenerateSlug(other, "!!!", random) == "-" + random
  {
    var name := "!!!";
    assert TrimLeft(name, IsSpace) == name && TrimRight(name, IsSpace) == name;
    assert name[1..] == "!!" && name[2..] == "!" && name[3..] == "";
    var lowered := ToLower(other, name);
    LowerKeepsAscii(other, name);
    ScanEmptyExactly(lowered, false, false);
    CleanIsScan(other, name);
  }

  lemma {:induction false} LowerKeepsAscii(other: char -> char, s: string)
    requires forall i :: 0 <= i < |s| ==> s[i] < 'A'
    ensures ToLower(other, s) == s
  {
    if s != [] {
      LowerKeepsAscii(other, s[1..]);
    }
  }
}
