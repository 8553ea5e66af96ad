/**
 * The landline pattern `/^(?:\+57)?(?:\d{7,10})$/` shared by `telefono` and
 * `telefono_empresa`: an optional Colombian prefix "+57" followed by seven to
 * ten ASCII digits (`\d` without the `u` flag is `[0-9]`).
 */
module Phone {

  predicate IsAsciiDigit(c: char) {
    '0' <= c <= '9'
  }

  predicate AllDigits(s: string) {
    forall i :: 0 <= i < |s| ==> IsAsciiDigit(s[i])
  }

  /** `\d{7,10}` */
  predicate DigitRun(s: string) {
    7 <= |s| <= 10 && AllDigits(s)
  }

  /** The regular expression, read as written: `(?:\+57)?` then `\d{7,10}`, anchored at both ends. */
  predicate MatchesPhonePattern(s: string) {
    DigitRun(s) || (|s| >= 3 && s[..3] == "+57" && DigitRun(s[3..]))
  }

  /**
   * An independent reading of the same pattern: the deterministic automaton
   * a regular-expression engine would run over the input, one character at a
   * time.
   */
  datatype State = Start | SawPlus | SawFive | InDigits(count: nat) | Dead

  function Step(st: State, c: char): State {
    match st
    case Start => if c == '+' then SawPlus else if IsAsciiDigit(c) then InDigits(1) else Dead
    case SawPlus => if c == '5' then SawFive else Dead
    case SawFive => if c == '7' then InDigits(0) else Dead
    case InDigits(n) => if IsAsciiDigit(c) && n < 10 then InDigits(n + 1) else Dead
    case Dead => Dead
  }

  function Run(st: State, s: string): State
    decreases |s|
  {
    if s == [] then st else Run(Step(st, s[0]), s[1..])
  }

  predicate Accepting(st: State) {
    st.InDigits? && 7 <= st.count <= 10
  }

  lemma {:induction false} RunDead(s: string)
    ensures Run(Dead, s) == Dead
  {
    if s != [] {
      RunDead(s[1..]);
    }
  }

  /** From `n` digits read so far, the rest is accepted iff it is all digits and the total is 7 to 10. */
  lemma {:induction false} RunDigits(n: nat, s: string)
    requires n <= 10
    ensures Accepting(Run(InDigits(n), s)) <==> AllDigits(s) && 7 <= n + |s| <= 10
    decreases |s|
  {
    if s != [] {
      if IsAsciiDigit(s[0]) && n < 10 {
        RunDigits(n + 1, s[1..]);
        assert AllDigits(s) <==> AllDigits(s[1..]);
      } else {
        RunDead(s[1..]);
      }
    }
  }

  /** The automaton accepts exactly the strings the regular expression matches. */
  lemma PhoneAutomatonMatchesPattern(s: string)
    ensures Accepting(Run(Start, s)) <==> MatchesPhonePattern(s)
  {
    if s == [] {
    } else if s[0] == '+' {
      assert !DigitRun(s);
      var s1 := s[1..];
      assert Run(Start, s) == Run(SawPlus, s1);
      if s1 == [] {
      } else if s1[0] != '5' {
        RunDead(s1[1..]);
        assert |s| >= 3 ==> s[..3][1] == s1[0];
      } else {
        var s2 := s1[1..];
        assert Run(SawPlus, s1) == Run(SawFive, s2);
        if s2 == [] {
        } else if s2[0] != '7' {
          RunDead(s2[1..]);
          assert s[..3][2] == s2[0];
        } else {
          assert s[..3] == "+57";
          assert s2[1..] == s[3..];
          assert Run(SawFive, s2) == Run(InDigits(0), s[3..]);
          RunDigits(0, s[3..]);
        }
      }
    } else if IsAsciiDigit(s[0]) {
      RunDigits(1, s[1..]);
      assert AllDigits(s) <==> AllDigits(s[1..]);
      assert |s| >= 3 ==> s[..3][0] == s[0];
    } else {
      RunDead(s[1..]);
      assert |s| >= 3 ==> s[..3][0] == s[0];
    }
  }

  /** A matching landline is 7 to 13 characters long and ends in a digit. */
  lemma PhoneShape(s: string)
    requires MatchesPhonePattern(s)
    ensures 7 <= |s| <= 13 && IsAsciiDigit(s[|s| - 1])
  {
    if !DigitRun(s) {
      assert s[3..][|s| - 4] == s[|s| - 1];
    }
  }

  /** Examples: the defaults of the spouse form, a prefixed mobile-length number, and too-short input. */
  lemma PhoneExamples()
    ensures MatchesPhonePattern("123456789")
    ensures MatchesPhonePattern("+576023334455")
    ensures !MatchesPhonePattern("+5760233344551")
    ensures !MatchesPhonePattern("123456")
    ensures !MatchesPhonePattern("")
  {
    assert "+576023334455"[..3] == "+57";
    assert "+576023334455"[3..] == "6023334455";
    assert !DigitRun("+5760233344551");
    assert "+5760233344551"[3..] == "60233344551";
  }
}
