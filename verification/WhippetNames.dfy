/** What a user name in a policy file means, apart from how whippet finds it out: everyone, a number,
    or an account of the passwd database. */
module WhippetNames {
  import opened Wrappers
  import opened Decimal
  import opened PolicyModel

  /** Digits, perhaps behind a plus sign, with that value. */
  ghost predicate Numeral(name: string, value: nat) {
    exists digits: string ::
      && (name == digits || name == "+" + digits)
      && digits != "" && AllDigits(digits) && DigitsValue(digits) == value
  }

  /** A number too large for a uid is a name like any other. */
  ghost predicate UidNumeral(name: string) { exists uid: u32 :: Numeral(name, uid) }

  ghost predicate Denotes(passwd: Passwd, name: string, uid: u32) {
    if name == "*" then uid == 0xFFFF_FFFF
    else if UidNumeral(name) then Numeral(name, uid)
    else passwd(name) == Found(uid)
  }

  /** Only an account name can be unknown. */
  ghost predicate Account(name: string) { name != "*" && !UidNumeral(name) }

  ghost predicate Known(passwd: Passwd, name: string) { exists uid: u32 :: Denotes(passwd, name, uid) }

  /** Two names of one user. */
  ghost predicate Namesakes(passwd: Passwd, a: string, b: string) {
    exists uid: u32 :: Denotes(passwd, a, uid) && Denotes(passwd, b, uid)
  }

  lemma NumeralParses(name: string, value: nat)
    requires Numeral(name, value)
    ensures ParseU32(name) == if value <= U32_MAX then Some(value) else None
  {
    var digits: string :|
      && (name == digits || name == "+" + digits)
      && digits != "" && AllDigits(digits) && DigitsValue(digits) == value;
    assert IsDigit(digits[0]);
    if name == "+" + digits {
      assert name[1..] == digits;
    }
  }

  lemma ParsedIsNumeral(name: string)
    requires ParseU32(name).Some?
    ensures Numeral(name, ParseU32(name).value)
  {
    var digits := if name != [] && name[0] == '+' then name[1..] else name;
    assert name == digits || name == "+" + digits;
  }

  /** The parser reads exactly the numerals of uids. */
  lemma ParseIff(name: string, uid: u32)
    ensures ParseU32(name) == Some(uid) <==> Numeral(name, uid)
    ensures ParseU32(name).Some? <==> UidNumeral(name)
  {
    if ParseU32(name).Some? {
      ParsedIsNumeral(name);
    }
    if Numeral(name, uid) {
      NumeralParses(name, uid);
    }
    if UidNumeral(name) {
      var other: u32 :| Numeral(name, other);
      NumeralParses(name, other);
    }
  }

  /** Resolving a name finds the uid it denotes. */
  lemma ResolveIff(passwd: Passwd, name: string, uid: u32)
    ensures Resolve(passwd, name) == Ok(uid) <==> Denotes(passwd, name, uid)
  {
    ParseIff(name, uid);
  }

  /** It fails exactly for unknown accounts, and says why. */
  lemma ResolveFails(passwd: Passwd, name: string)
    ensures Resolve(passwd, name).Ok? <==> Known(passwd, name)
    ensures Resolve(passwd, name) == Err(UserNotFound(name)) <==> Account(name) && passwd(name) == Missing
    ensures Resolve(passwd, name) == Err(UserLookupFailed(name)) <==> Account(name) && passwd(name) == Failed
    ensures !Known(passwd, name) ==> Account(name) && (passwd(name) == Missing || passwd(name) == Failed)
  {
    ParseIff(name, 0);
    if Resolve(passwd, name).Ok? {
      ResolveIff(passwd, name, Resolve(passwd, name).value);
    }
    if Known(passwd, name) {
      var uid: u32 :| Denotes(passwd, name, uid);
      ResolveIff(passwd, name, uid);
    }
  }

  lemma DenotesOne(passwd: Passwd, name: string, a: u32, b: u32)
    requires Denotes(passwd, name, a) && Denotes(passwd, name, b)
    ensures a == b
  {
    ResolveIff(passwd, name, a);
    ResolveIff(passwd, name, b);
  }

  /** The error for an unknown name. */
  function Complaint(passwd: Passwd, name: string): Error {
    if passwd(name) == Missing then UserNotFound(name) else UserLookupFailed(name)
  }

  lemma UnknownComplaint(passwd: Passwd, name: string)
    requires !Known(passwd, name)
    ensures Resolve(passwd, name) == Err(Complaint(passwd, name))
  {
    ResolveFails(passwd, name);
  }
}
