/**
 * `User.BeforeCreate`: the length bounds checked before a user row is
 * inserted. Go's `len` of a string counts the bytes of its UTF-8 encoding,
 * not its characters.
 */
module Users {
  import opened Wrappers

  datatype User = User(firstName: string, lastName: string, email: string, password: string)

  datatype UserError = FirstNameLength | LastNameLength | EmailLength

  /** The number of bytes UTF-8 uses for one character. */
  function Utf8Width(c: char): (n: int)
    ensures 1 <= n <= 4
    ensures n == 1 <==> c as int < 0x80
  {
    if c as int < 0x80 then 1 else if c as int < 0x800 then 2 else if c as int < 0x10000 then 3 else 4
  }

  /** `len(s)`: the byte length of the UTF-8 encoding of s. */
  function Utf8Length(s: string): nat {
    if |s| == 0 then 0 else Utf8Length(s[..|s| - 1]) + Utf8Width(s[|s| - 1])
  }

  /** A string takes between one and four bytes per character, exactly one when it is all ASCII. */
  lemma {:induction false} Utf8LengthBounds(s: string)
    ensures |s| <= Utf8Length(s) <= 4 * |s|
    ensures (forall i :: 0 <= i < |s| ==> s[i] as int < 0x80) ==> Utf8Length(s) == |s|
    ensures (forall i :: 0 <= i < |s| ==> 0x80 <= s[i] as int < 0x800) ==> Utf8Length(s) == 2 * |s|
  {
    if |s| > 0 {
      Utf8LengthBounds(s[..|s| - 1]);
    }
  }

  predicate Within(s: string, lo: int, hi: int) {
    lo <= Utf8Length(s) <= hi
  }

  /** `BeforeCreate`: first name, last name and email are checked in that order; the first out of bounds is reported. */
  function BeforeCreate(u: User): (r: Outcome<UserError>)
    ensures r == Pass <==> Within(u.firstName, 2, 50) && Within(u.lastName, 2, 50) && Within(u.email, 3, 100)
    ensures r == Fail(FirstNameLength) <==> !Within(u.firstName, 2, 50)
    ensures r == Fail(LastNameLength) <==> Within(u.firstName, 2, 50) && !Within(u.lastName, 2, 50)
    ensures r == Fail(EmailLength) <==> Within(u.firstName, 2, 50) && Within(u.lastName, 2, 50) && !Within(u.email, 3, 100)
  {
    if Utf8Length(u.firstName) < 2 || Utf8Length(u.firstName) > 50 then Fail(FirstNameLength)
    else if Utf8Length(u.lastName) < 2 || Utf8Length(u.lastName) > 50 then Fail(LastNameLength)
    else if Utf8Length(u.email) < 3 || Utf8Length(u.email) > 100 then Fail(EmailLength)
    else Pass
  }

  /** Names of 2 to 12 characters and emails of 3 to 25 characters pass whatever their characters. */
  lemma ShortFieldsPass(u: User)
    requires 2 <= |u.firstName| <= 12 && 2 <= |u.lastName| <= 12 && 3 <= |u.email| <= 25
    ensures BeforeCreate(u) == Pass
  {
    Utf8LengthBounds(u.firstName);
    Utf8LengthBounds(u.lastName);
    Utf8LengthBounds(u.email);
  }

  /**
   * The bound counts bytes: a first name of 26 Cyrillic letters (two bytes
   * each) is refused although it has only 26 characters.
   */
  lemma CyrillicNameRefused(u: User)
    requires |u.firstName| == 26 && forall i :: 0 <= i < 26 ==> 0x410 <= u.firstName[i] as int <= 0x44F
    ensures BeforeCreate(u) == Fail(FirstNameLength)
  {
    Utf8LengthBounds(u.firstName);
  }

  /** A one-character ASCII first name is refused: it is one byte, below the minimum of two. */
  lemma OneLetterAsciiNameRefused(u: User)
    requires |u.firstName| == 1 && u.firstName[0] as int < 0x80
    ensures BeforeCreate(u) == Fail(FirstNameLength)
  {
    Utf8LengthBounds(u.firstName);
  }
}
