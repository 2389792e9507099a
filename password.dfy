/**
 * The administrator password rule of the signup form (saniya.py, `signup`):
 * at least six characters, drawn only from ASCII letters, ASCII digits and
 * the specials `@$!%*?&`, with at least one of each of the three kinds.
 */
module Password {

  const MinLength := 6
  const Specials := "@$!%*?&"

  predicate IsLetter(c: char) { 'A' <= c <= 'Z' || 'a' <= c <= 'z' }
  predicate IsDigit(c: char) { '0' <= c <= '9' }
  predicate IsSpecial(c: char) { c in Specials }
  predicate IsPermitted(c: char) { IsLetter(c) || IsDigit(c) || IsSpecial(c) }

  /** The rule in the words of the form's error message. */
  predicate MeetsRule(p: string)
  {
    && |p| >= MinLength
    && (forall i :: 0 <= i < |p| ==> IsPermitted(p[i]))
    && (exists i :: 0 <= i < |p| && IsLetter(p[i]))
    && (exists i :: 0 <= i < |p| && IsDigit(p[i]))
    && (exists i :: 0 <= i < |p| && IsSpecial(p[i]))
  }

  /** What one left-to-right pass over the candidate has seen. */
  datatype Tally = Tally(allPermitted: bool, letter: bool, digit: bool, special: bool)

  /** The three look-aheads and the character class of the pattern, in one pass. */
  function Scan(p: string): (t: Tally)
    ensures t.allPermitted <==> forall i :: 0 <= i < |p| ==> IsPermitted(p[i])
    ensures t.letter <==> exists i :: 0 <= i < |p| && IsLetter(p[i])
    ensures t.digit <==> exists i :: 0 <= i < |p| && IsDigit(p[i])
    ensures t.special <==> exists i :: 0 <= i < |p| && IsSpecial(p[i])
  {
    if p == [] then Tally(true, false, false, false)
    else
      var rest := Scan(p[1..]);
      assert forall i :: 1 <= i < |p| ==> p[i] == p[1..][i - 1];
      Tally(IsPermitted(p[0]) && rest.allPermitted,
            IsLetter(p[0]) || rest.letter,
            IsDigit(p[0]) || rest.digit,
            IsSpecial(p[0]) || rest.special)
  }

  /** The part of the input that the pattern's `$` anchors: Python's `$` also matches just before one final newline. */
  function Anchored(p: string): (q: string)
    ensures q == p || q + "\n" == p
  {
    if |p| > 0 && p[|p| - 1] == '\n' then p[..|p| - 1] else p
  }

  /** `re.match(password_regex, password)` succeeds. */
  function Accepts(p: string): (ok: bool)
    ensures ok <==> MeetsRule(Anchored(p))
  {
    var q := Anchored(p);
    var t := Scan(q);
    |q| >= MinLength && t.allPermitted && t.letter && t.digit && t.special
  }

  /** Without newlines, the pattern accepts exactly the stated rule. */
  lemma AcceptsIffRule(p: string)
    requires forall i :: 0 <= i < |p| ==> p[i] != '\n'
    ensures Accepts(p) <==> MeetsRule(p)
  {
  }

  /** A rule-abiding password followed by one newline is accepted too, though it breaks the rule. */
  lemma TrailingNewlineAccepted(p: string)
    requires MeetsRule(p)
    ensures Accepts(p + "\n") && !MeetsRule(p + "\n")
  {
  }

  /** A password that meets the rule. */
  lemma AcceptsExample()
    ensures Accepts("abc12@")
  {
  }

  /** Passwords that miss one requirement each: a special, the length, a permitted character. */
  lemma RejectsExamples()
    ensures !Accepts("abc123") && !Accepts("ab1@") && !Accepts("abc 12@")
  {
    var noSpecial := "abc123";
    assert Anchored(noSpecial) == noSpecial;
    assert forall i :: 0 <= i < |noSpecial| ==> !IsSpecial(noSpecial[i]);
    var short := "ab1@";
    assert Anchored(short) == short;
    var blank := "abc 12@";
    assert Anchored(blank) == blank;
    assert !IsPermitted(blank[3]);
  }
}
