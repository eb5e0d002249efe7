/**
  Python's `str.title()` as applied to seller names: a cased letter is
  upper-cased when it does not follow a cased letter and lower-cased when it
  does; every other character is kept. Letters are those of ASCII and
  Latin-1.
 */
module Titles {

  predicate IsUpper(c: char) {
    ('A' <= c <= 'Z') || ('\U{C0}' <= c <= '\U{DE}' && c != '\U{D7}')
  }

  predicate IsLower(c: char) {
    ('a' <= c <= 'z') || ('\U{DF}' <= c <= '\U{FF}' && c != '\U{F7}')
  }

  predicate IsCased(c: char) {
    IsUpper(c) || IsLower(c)
  }

  /** Lower-case letters with an upper-case partner (not ß, not ÿ). */
  predicate HasUpper(c: char) {
    ('a' <= c <= 'z') || ('\U{E0}' <= c <= '\U{FE}' && c != '\U{F7}')
  }

  function ToUpper(c: char): char {
    if HasUpper(c) then (c as int - 32) as char else c
  }

  function ToLower(c: char): char {
    if IsUpper(c) then (c as int + 32) as char else c
  }

  function TitleFrom(s: string, afterCased: bool): (t: string)
    ensures |t| == |s|
  {
    if s == [] then []
    else [if afterCased then ToLower(s[0]) else ToUpper(s[0])] + TitleFrom(s[1..], IsCased(s[0]))
  }

  function Title(s: string): (t: string)
    ensures |t| == |s|
  {
    TitleFrom(s, false)
  }

  /** The character `Title` writes at a position, read off the input alone. */
  function TitledAt(s: string, i: int): char
    requires 0 <= i < |s|
  {
    if i > 0 && IsCased(s[i - 1]) then ToLower(s[i]) else ToUpper(s[i])
  }

  /** Already in title case: every character is what `str.title` would write there. */
  predicate IsTitled(s: string) {
    forall i | 0 <= i < |s| :: s[i] == TitledAt(s, i)
  }

  lemma CaseMapsKeepCasedness(c: char)
    ensures IsCased(ToUpper(c)) == IsCased(c) && IsCased(ToLower(c)) == IsCased(c)
    ensures ToUpper(ToUpper(c)) == ToUpper(c) && ToLower(ToLower(c)) == ToLower(c)
    ensures ToLower(ToUpper(c)) == ToLower(c)
  {
  }

  lemma {:induction false} TitleFromAt(s: string, afterCased: bool, i: int)
    requires 0 <= i < |s|
    ensures TitleFrom(s, afterCased)[i]
            == if (i == 0 && afterCased) || (i > 0 && IsCased(s[i - 1])) then ToLower(s[i]) else ToUpper(s[i])
  {
    if i > 0 {
      TitleFromAt(s[1..], IsCased(s[0]), i - 1);
    }
  }

  /** Position by position, `Title` is `TitledAt`. */
  lemma TitleAt(s: string, i: int)
    requires 0 <= i < |s|
    ensures Title(s)[i] == TitledAt(s, i)
  {
    TitleFromAt(s, false, i);
  }

  /** The result of `Title` is in title case. */
  lemma TitleIsTitled(s: string)
    ensures IsTitled(Title(s))
  {
    var t := Title(s);
    forall i | 0 <= i < |t|
      ensures t[i] == TitledAt(t, i)
    {
      TitleAt(s, i);
      CaseMapsKeepCasedness(s[i]);
      if i > 0 {
        TitleAt(s, i - 1);
        CaseMapsKeepCasedness(s[i - 1]);
      }
    }
  }

  /** A string already in title case is left as it is. */
  lemma TitledIsFixed(s: string)
    requires IsTitled(s)
    ensures Title(s) == s
  {
    forall i | 0 <= i < |s|
      ensures Title(s)[i] == s[i]
    {
      TitleAt(s, i);
    }
  }

  lemma TitleIsIdempotent(s: string)
    ensures Title(Title(s)) == Title(s)
  {
    TitleIsTitled(s);
    TitledIsFixed(Title(s));
  }

  /** Only letter case changes: the lower-cased strings agree. */
  lemma TitleKeepsLetters(s: string, i: int)
    requires 0 <= i < |s|
    ensures ToLower(Title(s)[i]) == ToLower(s[i])
    ensures IsCased(Title(s)[i]) == IsCased(s[i])
  {
    TitleAt(s, i);
    CaseMapsKeepCasedness(s[i]);
  }

  /** `Title(s) == t`, checked one position at a time. */
  lemma TitleIs(s: string, t: string)
    requires |s| == |t|
    requires forall i | 0 <= i < |s| :: TitledAt(s, i) == t[i]
    ensures Title(s) == t
  {
    forall i | 0 <= i < |s|
      ensures Title(s)[i] == t[i]
    {
      TitleAt(s, i);
    }
  }

  lemma TitleExamples()
    ensures Title("STEFAN BERGER") == "Stefan Berger"
    ensures Title("peter schmidt") == "Peter Schmidt"
  {
    TitleIs("STEFAN BERGER", "Stefan Berger");
    TitleIs("peter schmidt", "Peter Schmidt");
  }
}
