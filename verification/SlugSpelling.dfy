/** What the slug of an ASCII name says, letter by letter. */
module SlugSpelling {
  import opened Prelude
  import opened Slug

  predicate IsAscii(s: string) {
    forall i :: 0 <= i < |s| ==> s[i] < '\U{80}'
  }

  predicate IsAlphanumeric(c: char) {
    'a' <= c <= 'z' || 'A' <= c <= 'Z' || '0' <= c <= '9'
  }

  const SMALL := "abcdefghijklmnopqrstuvwxyz"
  const CAPITAL := "ABCDEFGHIJKLMNOPQRSTUVWXYZ"

  /** A small letter stands for its capital, anything else for itself. */
  predicate Spells(out: char, c: char) {
    if c in CAPITAL then exists i :: 0 <= i < 26 && CAPITAL[i] == c && SMALL[i] == out else out == c
  }

  /** ASCII white space or a dash. */
  predicate IsBreak(c: char) {
    c in [' ', '-', '\t', '\n', '\U{0B}', '\U{0C}', '\r']
  }

  /** There is white space or a dash between the two positions. */
  predicate Separated(name: string, i: int, j: int) {
    exists m :: i < m < j && 0 <= m < |name| && IsBreak(name[m])
  }

  /** The positions of the letters and digits of the name, in order and without a gap. */
  ghost predicate AreLetters(name: string, at: seq<nat>) {
    && (forall n :: 0 <= n < |at| ==> at[n] < |name| && IsAlphanumeric(name[at[n]]))
    && (forall n, m :: 0 <= n < m < |at| ==> at[n] < at[m])
    && (forall i :: 0 <= i < |name| && IsAlphanumeric(name[i]) ==> i in at)
  }

  /**
   * `text` spells the letters at the positions, one after another, with a dash between two of them exactly when
   * they are separated in the name.
   */
  ghost predicate SpellsOut(name: string, at: seq<nat>, text: string)
    decreases |at|
  {
    if at == [] then text == ""
    else
      var front, last := at[..|at| - 1], at[|at| - 1];
      && last < |name| && text != "" && Spells(text[|text| - 1], name[last])
      && var rest := text[..|text| - 1];
         if front != [] && Separated(name, front[|front| - 1], last) then
           rest != "" && rest[|rest| - 1] == '-' && SpellsOut(name, front, rest[..|rest| - 1])
         else SpellsOut(name, front, rest)
  }

  // ----- the scanner, read from the end -----

  predicate HasLetter(s: string) {
    exists i :: 0 <= i < |s| && IsSlugLetter(s[i])
  }

  /** Is a separator pending after `s`? */
  function Pending(s: string, pending: bool): bool {
    if s == [] then pending
    else if IsSlugLetter(s[0]) then Pending(s[1..], false)
    else Pending(s[1..], pending || Separates(s[0]))
  }

  lemma {:induction false} ScanAppend(s: string, c: char, started: bool, pending: bool)
    ensures Scan(s + [c], started, pending)
         == Scan(s, started, pending)
            + (if !IsSlugLetter(c) then []
               else if (started || HasLetter(s)) && Pending(s, pending) then ['-', c] else [c])
  {
    if s == [] {
      assert [] + [c] == [c] && [c][1..] == [];
    } else {
      assert (s + [c])[1..] == s[1..] + [c];
      assert HasLetter(s) <==> IsSlugLetter(s[0]) || HasLetter(s[1..]) by { HasLetterFirst(s); }
      if IsSlugLetter(s[0]) {
        ScanAppend(s[1..], c, true, false);
      } else {
        ScanAppend(s[1..], c, started, pending || Separates(s[0]));
      }
    }
  }

  lemma HasLetterFirst(s: string)
    requires s != []
    ensures HasLetter(s) <==> IsSlugLetter(s[0]) || HasLetter(s[1..])
  {
    if HasLetter(s[1..]) {
      var i :| 0 <= i < |s[1..]| && IsSlugLetter(s[1..][i]);
      assert IsSlugLetter(s[i + 1]);
    }
    if HasLetter(s) && !IsSlugLetter(s[0]) {
      var i :| 0 <= i < |s| && IsSlugLetter(s[i]);
      assert IsSlugLetter(s[1..][i - 1]);
    }
  }

  lemma {:induction false} PendingAppend(s: string, c: char, pending: bool)
    ensures Pending(s + [c], pending) == (!IsSlugLetter(c) && (Pending(s, pending) || Separates(c)))
  {
    if s == [] {
      assert [] + [c] == [c] && [c][1..] == [];
    } else {
      assert (s + [c])[1..] == s[1..] + [c];
      PendingAppend(s[1..], c, if IsSlugLetter(s[0]) then false else pending || Separates(s[0]));
    }
  }

  // ----- the name and its lower-cased form, character by character -----

  lemma {:induction false} LowerAppend(other: char -> char, s: string, c: char)
    ensures ToLower(other, s + [c]) == ToLower(other, s) + [LowerChar(other, c)]
  {
    if s == [] {
      assert [] + [c] == [c] && [c][1..] == [];
    } else {
      assert (s + [c])[1..] == s[1..] + [c];
      LowerAppend(other, s[1..], c);
    }
  }

  lemma Alphabet()
    ensures |SMALL| == |CAPITAL| == 26
    ensures forall i :: 0 <= i < 26 ==> CAPITAL[i] as int == 65 + i && SMALL[i] as int == 97 + i
    ensures forall c :: c in CAPITAL <==> 'A' <= c <= 'Z'
  {
    forall c: char | 'A' <= c <= 'Z' ensures c in CAPITAL {
      assert CAPITAL[c as int - 65] == c;
    }
  }

  lemma LowerSpells(other: char -> char, c: char)
    requires c < '\U{80}'
    ensures IsSlugLetter(LowerChar(other, c)) <==> IsAlphanumeric(c)
    ensures Separates(LowerChar(other, c)) <==> IsBreak(c)
  {
  }

  lemma LowerSpellsLetter(other: char -> char, c: char)
    requires c < '\U{80}'
    ensures Spells(LowerChar(other, c), c)
  {
    Alphabet();
    if 'A' <= c <= 'Z' {
      var i := c as int - 65;
      assert CAPITAL[i] == c && SMALL[i] == LowerChar(other, c);
    }
  }

  /** What has been read so far: how the letters are spelled, and whether a separator is pending. */
  ghost predicate ReadSoFar(name: string, at: seq<nat>, text: string, started: bool, pending: bool) {
    && AreInside(name, at) && SpellsOut(name, at, text)
    && (started <==> at != [])
    && (at != [] ==> (pending <==> Separated(name, at[|at| - 1], |name|)))
  }

  /** The scanner, stopped after the lower-cased name. */
  ghost predicate ScanHasRead(other: char -> char, name: string, at: seq<nat>) {
    var lowered := ToLower(other, name);
    && AreLetters(name, at)
    && ReadSoFar(name, at, Scan(lowered, false, false), HasLetter(lowered), Pending(lowered, false))
  }

  lemma {:induction false} ScanReads(other: char -> char, name: string) returns (at: seq<nat>)
    requires IsAscii(name)
    ensures ScanHasRead(other, name, at)
    decreases |name|
  {
    if name == [] {
      at := [];
    } else {
      var front, c := name[..|name| - 1], name[|name| - 1];
      at := ScanReads(other, front);
      assert name == front + [c];
      if IsAlphanumeric(c) {
        LetterStep(other, front, c, at);
        at := at + [|front|];
      } else {
        OtherStep(other, front, c, at);
      }
    }
  }

  /** How one character more moves the scanner on. */
  lemma ScanStep(other: char -> char, front: string, c: char)
    requires c < '\U{80}'
    ensures var d, lowered, more := LowerChar(other, c), ToLower(other, front), ToLower(other, front + [c]);
            var started, pending := HasLetter(lowered), Pending(lowered, false);
            && (HasLetter(more) <==> started || IsAlphanumeric(c))
            && (Pending(more, false) <==> !IsAlphanumeric(c) && (pending || IsBreak(c)))
            && Scan(more, false, false)
               == Scan(lowered, false, false)
                  + (if !IsAlphanumeric(c) then [] else if started && pending then ['-', d] else [d])
  {
    var d, lowered := LowerChar(other, c), ToLower(other, front);
    LowerAppend(other, front, c);
    LowerSpells(other, c);
    ScanAppend(lowered, d, false, false);
    PendingAppend(lowered, d, false);
    HasLetterLast(lowered, d);
  }

  lemma LetterStep(other: char -> char, front: string, c: char, at: seq<nat>)
    requires ScanHasRead(other, front, at) && c < '\U{80}' && IsAlphanumeric(c)
    ensures ScanHasRead(other, front + [c], at + [|front|])
  {
    var lowered, d := ToLower(other, front), LowerChar(other, c);
    ScanStep(other, front, c);
    LowerSpellsLetter(other, c);
    ReadLetter(front, c, at, Scan(lowered, false, false), HasLetter(lowered), Pending(lowered, false), d);
    LettersGrow(front, c, at);
  }

  lemma OtherStep(other: char -> char, front: string, c: char, at: seq<nat>)
    requires ScanHasRead(other, front, at) && c < '\U{80}' && !IsAlphanumeric(c)
    ensures ScanHasRead(other, front + [c], at)
  {
    var lowered := ToLower(other, front);
    ScanStep(other, front, c);
    ReadOther(front, c, at, Scan(lowered, false, false), HasLetter(lowered), Pending(lowered, false));
    OtherGrows(front, c, at);
    assert Scan(lowered, false, false) + [] == Scan(lowered, false, false);
  }

  lemma OtherGrows(front: string, c: char, at: seq<nat>)
    requires AreLetters(front, at) && !IsAlphanumeric(c)
    ensures AreLetters(front + [c], at)
  {
    forall i | 0 <= i < |front + [c]| && IsAlphanumeric((front + [c])[i]) ensures i in at {
      assert front[i] == (front + [c])[i];
    }
  }

  lemma HasLetterLast(s: string, c: char)
    ensures HasLetter(s + [c]) <==> HasLetter(s) || IsSlugLetter(c)
  {
    if HasLetter(s) {
      var i :| 0 <= i < |s| && IsSlugLetter(s[i]);
      assert IsSlugLetter((s + [c])[i]);
    }
    assert (s + [c])[|s|] == c;
  }

  lemma {:induction false} SpellsOutLonger(name: string, more: string, at: seq<nat>, text: string)
    requires SpellsOut(name, at, text) && AreInside(name, at)
    ensures SpellsOut(name + more, at, text)
    decreases |at|
  {
    if at != [] {
      var front, last := at[..|at| - 1], at[|at| - 1];
      var rest := text[..|text| - 1];
      if front != [] {
        SeparatedLonger(name, more, front[|front| - 1], last);
      }
      if front != [] && Separated(name, front[|front| - 1], last) {
        SpellsOutLonger(name, more, front, rest[..|rest| - 1]);
      } else {
        SpellsOutLonger(name, more, front, rest);
      }
    }
  }

  ghost predicate AreInside(name: string, at: seq<nat>) {
    forall n :: 0 <= n < |at| ==> at[n] < |name|
  }

  lemma SeparatedLonger(name: string, more: string, i: int, j: int)
    requires j <= |name|
    ensures Separated(name + more, i, j) <==> Separated(name, i, j)
  {
    if Separated(name, i, j) {
      var m :| i < m < j && 0 <= m < |name| && IsBreak(name[m]);
      assert (name + more)[m] == name[m];
    }
  }

  lemma ReadLetter(front: string, c: char, at: seq<nat>, text: string, started: bool, pending: bool, d: char)
    requires ReadSoFar(front, at, text, started, pending) && Spells(d, c)
    ensures ReadSoFar(front + [c], at + [|front|], text + (if started && pending then ['-', d] else [d]), true, false)
  {
    InsideGrows(front, c, at);
    SpellLetter(front, c, at, text, started && pending, d);
  }

  lemma InsideGrows(front: string, c: char, at: seq<nat>)
    requires AreInside(front, at)
    ensures AreInside(front + [c], at + [|front|]) && (at + [|front|])[|at + [|front|]| - 1] == |front|
    ensures !Separated(front + [c], |front|, |front + [c]|)
  {
  }

  /** One letter more, after a dash when the name separates it from the letter before. */
  lemma SpellLetter(front: string, c: char, at: seq<nat>, text: string, apart: bool, d: char)
    requires AreInside(front, at) && SpellsOut(front, at, text) && Spells(d, c)
    requires apart <==> at != [] && Separated(front, at[|at| - 1], |front|)
    ensures SpellsOut(front + [c], at + [|front|], text + (if apart then ['-', d] else [d]))
  {
    var name, n := front + [c], |front|;
    SpellsOutLonger(front, [c], at, text);
    assert name[n] == c;
    if at != [] {
      SeparatedLonger(front, [c], at[|at| - 1], n);
    }
    if apart {
      SpellAfterDash(name, at, n, text, d);
    } else {
      SpellNext(name, at, n, text, d);
    }
  }

  lemma SpellAfterDash(name: string, at: seq<nat>, n: nat, text: string, d: char)
    requires SpellsOut(name, at, text) && n < |name| && Spells(d, name[n])
    requires at != [] && Separated(name, at[|at| - 1], n)
    ensures SpellsOut(name, at + [n], text + ['-', d])
  {
    var at', text' := at + [n], text + ['-', d];
    assert at'[..|at'| - 1] == at && at'[|at'| - 1] == n;
    var rest := text'[..|text'| - 1];
    assert rest == text + ['-'];
    assert rest[..|rest| - 1] == text;
  }

  lemma SpellNext(name: string, at: seq<nat>, n: nat, text: string, d: char)
    requires SpellsOut(name, at, text) && n < |name| && Spells(d, name[n])
    requires at != [] ==> !Separated(name, at[|at| - 1], n)
    ensures SpellsOut(name, at + [n], text + [d])
  {
    var at', text' := at + [n], text + [d];
    assert at'[..|at'| - 1] == at && at'[|at'| - 1] == n;
    assert text'[..|text'| - 1] == text;
  }

  lemma LettersGrow(front: string, c: char, at: seq<nat>)
    requires AreLetters(front, at) && IsAlphanumeric(c)
    ensures AreLetters(front + [c], at + [|front|])
  {
    var name, at' := front + [c], at + [|front|];
    forall i | 0 <= i < |name| && IsAlphanumeric(name[i]) ensures i in at' {
      if i < |front| {
        assert front[i] == name[i] && i in at;
      } else {
        assert at'[|at|] == i;
      }
    }
  }

  lemma ReadOther(front: string, c: char, at: seq<nat>, text: string, started: bool, pending: bool)
    requires ReadSoFar(front, at, text, started, pending)
    ensures ReadSoFar(front + [c], at, text, started, pending || IsBreak(c))
  {
    SpellsOutLonger(front, [c], at, text);
    if at != [] {
      SeparatedAtEnd(front, c, at[|at| - 1]);
    }
  }

  lemma SeparatedAtEnd(front: string, c: char, i: nat)
    requires i < |front|
    ensures Separated(front + [c], i, |front| + 1) <==> Separated(front, i, |front|) || IsBreak(c)
  {
    var name := front + [c];
    SeparatedLonger(front, [c], i, |front|);
    assert name[|front|] == c;
    if Separated(front, i, |front|) {
      var m :| i < m < |front| && 0 <= m < |name| && IsBreak(name[m]);
    }
  }

  // ----- trimming first makes no difference -----

  lemma ScanOfTrimmed(other: char -> char, name: string)
    requires IsAscii(name)
    ensures Scan(ToLower(other, Trim(name, IsSpace)), false, false) == Scan(ToLower(other, name), false, false)
  {
    LowerOfTrimLeft(other, name);
    TrimLeftIsSuffix(name, IsSpace);
    LowerOfTrimRight(other, TrimLeft(name, IsSpace));
    ScanKeepsTrim(ToLower(other, name), IsSpace);
  }

  lemma {:induction false} LowerOfTrimLeft(other: char -> char, s: string)
    requires IsAscii(s)
    ensures ToLower(other, TrimLeft(s, IsSpace)) == TrimLeft(ToLower(other, s), IsSpace)
  {
    if s != [] {
      LowerKeepsSpace(other, s[0]);
      if IsSpace(s[0]) {
        LowerOfTrimLeft(other, s[1..]);
      }
    }
  }

  lemma {:induction false} LowerOfTrimRight(other: char -> char, s: string)
    requires IsAscii(s)
    ensures ToLower(other, TrimRight(s, IsSpace)) == TrimRight(ToLower(other, s), IsSpace)
    decreases |s|
  {
    if s != [] {
      var front, c := s[..|s| - 1], s[|s| - 1];
      assert s == front + [c];
      LowerAppend(other, front, c);
      LowerKeepsSpace(other, c);
      if IsSpace(c) {
        LowerOfTrimRight(other, front);
      }
    }
  }

  lemma LowerKeepsSpace(other: char -> char, c: char)
    requires c < '\U{80}'
    ensures IsSpace(LowerChar(other, c)) <==> IsSpace(c)
  {
  }

  // ----- main results -----

  /**
   * Before it is cut, the base of an ASCII name has exactly the name's letters and digits in order, capitals as
   * small letters, with one dash between two of them exactly when white space or a dash separates them in the name.
   */
  lemma CleanSpellsName(other: char -> char, name: string) returns (at: seq<nat>)
    requires IsAscii(name)
    ensures AreLetters(name, at) && SpellsOut(name, at, Clean(other, name))
  {
    CleanIsScan(other, name);
    ScanOfTrimmed(other, name);
    at := ScanReads(other, name);
  }

  /** There is only one such text. */
  lemma {:induction false} OneSpelling(name: string, at: seq<nat>, a: string, b: string)
    requires SpellsOut(name, at, a) && SpellsOut(name, at, b)
    ensures a == b
    decreases |at|
  {
    if at != [] {
      var front, last := at[..|at| - 1], at[|at| - 1];
      OneCharacter(a[|a| - 1], b[|b| - 1], name[last]);
      var ra, rb := a[..|a| - 1], b[..|b| - 1];
      if front != [] && Separated(name, front[|front| - 1], last) {
        OneSpelling(name, front, ra[..|ra| - 1], rb[..|rb| - 1]);
        assert ra == ra[..|ra| - 1] + ['-'] && rb == rb[..|rb| - 1] + ['-'];
      } else {
        OneSpelling(name, front, ra, rb);
      }
      assert a == ra + [a[|a| - 1]] && b == rb + [b[|b| - 1]];
    }
  }

  lemma OneCharacter(x: char, y: char, c: char)
    requires Spells(x, c) && Spells(y, c)
    ensures x == y
  {
    Alphabet();
  }

  /** Two names that differ in the case of ASCII letters only have the same slug. */
  lemma CaseDoesNotMatter(other: char -> char, a: string, b: string, random: string)
    requires IsAscii(a) && IsAscii(b) && |a| == |b|
    requires forall i :: 0 <= i < |a| ==> a[i] == b[i] || Spells(a[i], b[i]) || Spells(b[i], a[i])
    ensures GenerateSlug(other, a, random) == GenerateSlug(other, b, random)
  {
    SameLowered(other, a, b);
    CleanIsScan(other, a);
    CleanIsScan(other, b);
    ScanOfTrimmed(other, a);
    ScanOfTrimmed(other, b);
  }

  lemma {:induction false} SameLowered(other: char -> char, a: string, b: string)
    requires IsAscii(a) && IsAscii(b) && |a| == |b|
    requires forall i :: 0 <= i < |a| ==> a[i] == b[i] || Spells(a[i], b[i]) || Spells(b[i], a[i])
    ensures ToLower(other, a) == ToLower(other, b)
  {
    if a != [] {
      SameLoweredChar(other, a[0], b[0]);
      SameLowered(other, a[1..], b[1..]);
    }
  }

  lemma SameLoweredChar(other: char -> char, c: char, d: char)
    requires c < '\U{80}' && d < '\U{80}' && (c == d || Spells(c, d) || Spells(d, c))
    ensures LowerChar(other, c) == LowerChar(other, d)
  {
    Alphabet();
  }

  /** The base is the whole of the text, or what is left of its first 93 characters without a dash at the end. */
  lemma BaseIsCut(other: char -> char, name: string)
    ensures |Clean(other, name)| <= 93 ==> SlugBase(other, name) == Clean(other, name)
    ensures |Clean(other, name)| > 93 ==>
              SlugBase(other, name) == if Clean(other, name)[92] == '-' then Clean(other, name)[..92]
                                       else Clean(other, name)[..93]
  {
    var clean := Clean(other, name);
    CleanIsNormal(other, name);
    if |clean| > 93 {
      var cut := clean[..93];
      assert cut[..92] == clean[..92] && cut[92] == clean[92] && cut[91] == clean[91];
      if clean[92] == '-' {
        assert clean[91] != '-';
        assert TrimRight(cut, IsDash) == TrimRight(cut[..92], IsDash) == cut[..92];
      }
    }
  }

  lemma {:induction false} LoweredAt(other: char -> char, s: string)
    ensures |ToLower(other, s)| == |s| && forall i :: 0 <= i < |s| ==> ToLower(other, s)[i] == LowerChar(other, s[i])
  {
    if s != [] {
      LoweredAt(other, s[1..]);
    }
  }

  lemma ScanAt(s: string, i: nat, started: bool, pending: bool, rest: string)
    requires i < |s|
    requires var letter := IsSlugLetter(s[i]);
             Scan(s[i + 1..], started || letter, !letter && (pending || Separates(s[i]))) == rest
    ensures Scan(s[i..], started, pending)
         == (if !IsSlugLetter(s[i]) then [] else if started && pending then ['-', s[i]] else [s[i]]) + rest
  {
    assert s[i..][1..] == s[i + 1..];
  }

  /** The example in the source. */
  lemma HelloMyTeam(other: char -> char, name: string, random: string)
    requires name == "Hello! My  Team@"
    ensures GenerateSlug(other, name, random) == "hello-my-team-" + random
  {
    HelloIsTrimmed(name);
    HelloLowered(other, name);
    HelloScans(ToLower(other, name));
    CleanIsScan(other, name);
    BaseIsCut(other, name);
  }

  lemma HelloIsTrimmed(name: string)
    requires name == "Hello! My  Team@"
    ensures Trim(name, IsSpace) == name
  {
    assert TrimLeft(name, IsSpace) == name && TrimRight(name, IsSpace) == name;
  }

  lemma HelloLowered(other: char -> char, name: string)
    requires name == "Hello! My  Team@"
    ensures ToLower(other, name) == "hello! my  team@"
  {
    LoweredAt(other, name);
  }

  /** A run of letters is read as it is. */
  lemma {:induction false} WordAt(s: string, i: nat, n: nat)
    requires i <= n <= |s| && forall j :: i <= j < n ==> IsSlugLetter(s[j])
    ensures Scan(s[i..], true, false) == s[i..n] + Scan(s[n..], true, false)
    decreases n - i
  {
    if i < n {
      WordAt(s, i + 1, n);
      assert s[i..][1..] == s[i + 1..] && s[i..n] == [s[i]] + s[i + 1..n];
    }
  }

  lemma HelloScans(s: string)
    requires s == "hello! my  team@"
    ensures Scan(s, false, false) == "hello-my-team"
  {
    MyTeamScans(s);
    ElloIsWord(s);
    WordAt(s, 1, 5);
    ScanAt(s, 0, false, false, "ello" + "-my-team");
    assert s[0..] == s;
  }

  lemma ElloIsWord(s: string)
    requires s == "hello! my  team@"
    ensures s[1..5] == "ello"
  {
    assert s[1] == 'e' && s[2] == 'l' && s[3] == 'l' && s[4] == 'o';
  }

  lemma MyTeamScans(s: string)
    requires s == "hello! my  team@"
    ensures Scan(s[5..], true, false) == "-my-team"
  {
    TeamScans(s);
    WordAt(s, 8, 9);
    assert s[8..9] == "y";
    ScanAt(s, 7, true, true, "y-team");
    ScanAt(s, 6, true, false, "-my-team");
    ScanAt(s, 5, true, false, "-my-team");
  }

  lemma TeamScans(s: string)
    requires s == "hello! my  team@"
    ensures Scan(s[9..], true, false) == "-team"
  {
    assert s[16..] == "";
    ScanAt(s, 15, true, false, "");
    WordAt(s, 12, 15);
    assert s[12..15] == "eam";
    ScanAt(s, 11, true, true, "eam");
    ScanAt(s, 10, true, true, "-team");
    ScanAt(s, 9, true, false, "-team");
  }
}
