/** The value-level rules of the `accounts` app's identity type: the role
    choices, Python's `str.strip` behind the full name, and the telephone
    validator. */
module AccountsIdentity {

  // The values of CustomUser.UserRole.
  const ADMIN: string := "admin"
  const CLIENTE: string := "cliente"
  const EMPLEADO: string := "empleado"

  predicate IsRoleChoice(role: string) {
    role == ADMIN || role == CLIENTE || role == EMPLEADO
  }

  /** Python's `str.isspace` for one character. */
  predicate IsSpace(c: char) {
    var n := c as int;
    || 9 <= n <= 13 || 28 <= n <= 32 || n == 0x85 || n == 0xA0 || n == 0x1680
    || 0x2000 <= n <= 0x200A || n == 0x2028 || n == 0x2029 || n == 0x202F || n == 0x205F || n == 0x3000
  }

  predicate AllSpace(s: string) {
    forall i :: 0 <= i < |s| ==> IsSpace(s[i])
  }

  /** Neither end of `s` is whitespace. */
  predicate Trimmed(s: string) {
    s == [] || (!IsSpace(s[0]) && !IsSpace(s[|s| - 1]))
  }

  /** `str.lstrip()`: the suffix left after the leading whitespace. */
  function StripLeading(s: string): (r: string)
    ensures |r| <= |s| && r == s[|s| - |r|..]
    ensures AllSpace(s[..|s| - |r|])
    ensures r == [] || !IsSpace(r[0])
  {
    if s != [] && IsSpace(s[0]) then
      var r := StripLeading(s[1..]);
      assert s[..|s| - |r|] == [s[0]] + s[1..][..|s| - 1 - |r|];
      r
    else s
  }

  /** `str.rstrip()`: the prefix left before the trailing whitespace. */
  function StripTrailing(s: string): (r: string)
    ensures |r| <= |s| && r == s[..|r|]
    ensures AllSpace(s[|r|..])
    ensures r == [] || !IsSpace(r[|r| - 1])
  {
    if s != [] && IsSpace(s[|s| - 1]) then
      var r := StripTrailing(s[..|s| - 1]);
      assert s[|r|..] == s[..|s| - 1][|r|..] + [s[|s| - 1]];
      r
    else s
  }

  /** `r` is the slice of `s` at `i`, with only whitespace before and after it. */
  predicate SpaceAround(s: string, r: string, i: int) {
    0 <= i <= |s| - |r| && r == s[i..i + |r|] && AllSpace(s[..i]) && AllSpace(s[i + |r|..])
  }

  /** `str.strip()`: `s` with its surrounding whitespace removed. */
  function Strip(s: string): (r: string)
    ensures Trimmed(r)
    ensures exists i :: SpaceAround(s, r, i)
  {
    var l := StripLeading(s);
    var r := StripTrailing(l);
    StripParts(s, l, r);
    r
  }

  lemma StripParts(s: string, l: string, r: string)
    requires |l| <= |s| && l == s[|s| - |l|..] && AllSpace(s[..|s| - |l|]) && (l == [] || !IsSpace(l[0]))
    requires |r| <= |l| && r == l[..|r|] && AllSpace(l[|r|..]) && (r == [] || !IsSpace(r[|r| - 1]))
    ensures Trimmed(r) && SpaceAround(s, r, |s| - |l|)
  {
    var i := |s| - |l|;
    assert r == s[i..i + |r|];
    assert s[i + |r|..] == l[|r|..];
    assert r != [] ==> r[0] == l[0];
  }

  lemma {:induction false} StripLeadingSpaces(p: string, rest: string)
    requires AllSpace(p) && (rest == [] || !IsSpace(rest[0]))
    ensures StripLeading(p + rest) == rest
    decreases |p|
  {
    if p != [] {
      assert (p + rest)[1..] == p[1..] + rest;
      StripLeadingSpaces(p[1..], rest);
    }
  }

  lemma {:induction false} StripTrailingSpaces(rest: string, q: string)
    requires AllSpace(q) && (rest == [] || !IsSpace(rest[|rest| - 1]))
    ensures StripTrailing(rest + q) == rest
    decreases |q|
  {
    if q != [] {
      assert (rest + q)[..|rest + q| - 1] == rest + q[..|q| - 1];
      StripTrailingSpaces(rest, q[..|q| - 1]);
    } else {
      assert rest + q == rest;
    }
  }

  /** The slice that Strip keeps is the only one with whitespace around it and
      none at its ends. */
  lemma StripUnique(p: string, r: string, q: string)
    requires AllSpace(p) && AllSpace(q) && Trimmed(r)
    ensures Strip(p + r + q) == r
  {
    if r == [] {
      assert p + r + q == (p + q) + [];
      assert AllSpace(p + q);
      StripLeadingSpaces(p + q, []);
    } else {
      assert p + r + q == p + (r + q);
      StripLeadingSpaces(p, r + q);
      StripTrailingSpaces(r, q);
    }
  }

  /** Two names joined by one space and stripped: empty when both are blank, a
      lone name when the other is empty, and the joined names when both are
      non-empty and trimmed. */
  lemma JoinedNameCases(first: string, last: string)
    ensures AllSpace(first) && AllSpace(last) ==> Strip(first + " " + last) == ""
    ensures first == "" && Trimmed(last) ==> Strip(first + " " + last) == last
    ensures Trimmed(first) && last == "" ==> Strip(first + " " + last) == first
    ensures first != "" && last != "" && Trimmed(first) && Trimmed(last) ==>
              Strip(first + " " + last) == first + " " + last
  {
    var s := first + " " + last;
    if AllSpace(first) && AllSpace(last) {
      assert AllSpace(s);
      assert s == s + "" + "";
      StripUnique(s, "", "");
    }
    if first == "" && Trimmed(last) {
      assert s == " " + last + "";
      StripUnique(" ", last, "");
    }
    if Trimmed(first) && last == "" {
      assert s == "" + first + " ";
      StripUnique("", first, " ");
    }
    if first != "" && last != "" && Trimmed(first) && Trimmed(last) {
      assert s == "" + s + "";
      assert s[0] == first[0] && s[|s| - 1] == last[|last| - 1];
      StripUnique("", s, "");
    }
  }

  predicate IsDigit(c: char) {
    '0' <= c <= '9'
  }

  predicate AllDigits(s: string) {
    forall i :: 0 <= i < |s| ==> IsDigit(s[i])
  }

  /** `t` is empty or the single character `c`: the regex `c?`. */
  predicate Optional(t: string, c: char) {
    t == [] || t == [c]
  }

  /** The pattern `\+?1?\d{9,15}` matches the whole of `s`: an optional plus, an
      optional one, then nine to fifteen digits. */
  predicate FullMatch(s: string) {
    exists i, j :: 0 <= i <= j <= |s| && Optional(s[..i], '+') && Optional(s[i..j], '1')
                   && AllDigits(s[j..]) && 9 <= |s| - j <= 15
  }

  /** The telephone validator as written: `re.search(r'^\+?1?\d{9,15}$', s)`.
      Python's `$` also matches just before a final newline. */
  predicate PhoneValidAsWritten(s: string) {
    FullMatch(s) || (|s| > 0 && s[|s| - 1] == '\n' && FullMatch(s[..|s| - 1]))
  }

  /** The telephone validator as meant: the pattern must span the whole value. */
  predicate PhoneValid(s: string) {
    FullMatch(s)
  }

  /** The digits after an optional leading plus. */
  function AfterPlus(s: string): string {
    if |s| > 0 && s[0] == '+' then s[1..] else s
  }

  /** The shape the pattern describes, said directly. */
  predicate PhoneDigits(s: string) {
    var d := AfterPlus(s);
    AllDigits(d) && (9 <= |d| <= 15 || (|d| == 16 && d[0] == '1'))
  }

  /** What the pattern accepts, said directly: after an optional plus, 9 to 15
      digits, or 16 digits of which the first is the country code 1. So an
      accepted value is at most 17 characters long, and the field's max_length
      of 17 never refuses one. */
  lemma PhoneShape(s: string)
    ensures PhoneValid(s) <==> PhoneDigits(s)
    ensures PhoneValid(s) ==> |s| <= 17
  {
    if FullMatch(s) {
      MatchHasShape(s);
    }
    if PhoneDigits(s) {
      ShapeMatches(s);
    }
  }

  lemma MatchHasShape(s: string)
    requires FullMatch(s)
    ensures PhoneDigits(s)
  {
    var i, j :| 0 <= i <= j <= |s| && Optional(s[..i], '+') && Optional(s[i..j], '1')
                && AllDigits(s[j..]) && 9 <= |s| - j <= 15;
    var digits := s[j..];
    if i == 1 {
      assert s[0] == s[..i][0] == '+';
    } else if j == 1 {
      assert s[0] == s[i..j][0] == '1';
    } else {
      assert s[0] == digits[0];
    }
    var d := AfterPlus(s);
    assert d == s[i..];
    if j == i + 1 {
      assert d[0] == s[i..j][0] == '1';
      forall k | 0 <= k < |d| ensures IsDigit(d[k]) {
        if k > 0 {
          assert d[k] == digits[k - 1];
        }
      }
    } else {
      assert d == digits;
    }
  }

  lemma ShapeMatches(s: string)
    requires PhoneDigits(s)
    ensures FullMatch(s)
  {
    var d := AfterPlus(s);
    var i := if |s| > 0 && s[0] == '+' then 1 else 0;
    assert d == s[i..];
    var j := if |d| == 16 then i + 1 else i;
    assert Optional(s[..i], '+') by {
      if i == 1 { assert s[..i] == [s[0]]; } else { assert s[..i] == []; }
    }
    assert Optional(s[i..j], '1') by {
      if |d| == 16 { assert s[i..j] == [d[0]]; } else { assert s[i..j] == []; }
    }
    assert s[j..] == d[j - i..];
  }

  /** `CustomUser.telefono` passes its field validation: the field may be blank
      (then no validator runs); otherwise max_length 17 and the validator. */
  predicate TelefonoAcceptedAsWritten(s: string) {
    s == "" || (|s| <= 17 && PhoneValidAsWritten(s))
  }

  /** The same with the validator as meant. */
  predicate TelefonoAccepted(s: string) {
    s == "" || (|s| <= 17 && PhoneValid(s))
  }

  /** As written, a number followed by a newline passes the field validation;
      as meant it does not. */
  lemma TrailingNewlineAccepted()
    ensures var s := "+123456789012345\n";
            && |s| == 17 && TelefonoAcceptedAsWritten(s) && !TelefonoAccepted(s)
  {
    var s := "+123456789012345\n";
    var m := s[..|s| - 1];
    assert m[..1] == "+" && m[1..1] == [] && AllDigits(m[1..]);
    assert Optional(m[..1], '+') && Optional(m[1..1], '1');
    assert FullMatch(m);
    PhoneShape(s);
    assert !IsDigit(AfterPlus(s)[15]);
    assert !PhoneDigits(s);
  }

  /** As meant, an accepted telephone is blank or a plus and digits: never a
      newline or any other character. */
  lemma TelefonoAcceptedCharacters(s: string)
    requires TelefonoAccepted(s)
    ensures forall k :: 0 <= k < |s| ==> IsDigit(s[k]) || (k == 0 && s[k] == '+')
  {
    if s != "" {
      PhoneShape(s);
      var d := AfterPlus(s);
      forall k | 0 <= k < |s| ensures IsDigit(s[k]) || (k == 0 && s[k] == '+') {
        if |s| > 0 && s[0] == '+' {
          if k > 0 { assert s[k] == d[k - 1]; }
        } else {
          assert s[k] == d[k];
        }
      }
    }
  }
}
