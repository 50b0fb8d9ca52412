/**
 * The card-number rules of `CardService`: the Luhn check digit that
 * `generateCardNumber` appends, `validateLuhn`, `maskCardNumber`, and the
 * order of checks in `CreateCard`. Card numbers are Go strings, so they are
 * modelled as byte sequences.
 */
module CardService {
  import opened Wrappers
  import opened GoArith
  import opened Models

  /** `int(number[i] - '0')`: the byte difference wraps modulo 256 before it is widened, so bytes below '0' count from 208. */
  function LuhnValue(b: Byte): (v: int)
    ensures 0 <= v < 256 && v == (b as int - 48) % 256
  {
    if b >= 48 then b - 48 else b + 208
  }

  /** A digit doubled, less 9 when the double exceeds 9. */
  function Doubled(d: int): int {
    if 2 * d > 9 then 2 * d - 9 else 2 * d
  }

  /** The contribution of the byte at left index i: doubled at even indices. */
  function Weighted(i: nat, b: Byte): int {
    if i % 2 == 0 then Doubled(LuhnValue(b)) else LuhnValue(b)
  }

  /** The checksum both loops of the card service compute, left to right. */
  function LuhnSum(s: seq<Byte>): int {
    if |s| == 0 then 0 else LuhnSum(s[..|s| - 1]) + Weighted(|s| - 1, s[|s| - 1])
  }

  lemma {:induction false} LuhnSumNonNegative(s: seq<Byte>)
    ensures LuhnSum(s) >= 0
  {
    if |s| > 0 {
      LuhnSumNonNegative(s[..|s| - 1]);
    }
  }

  /** The summing loop shared by `generateCardNumber` and `validateLuhn`. */
  method Checksum(number: seq<Byte>) returns (sum: int)
    ensures sum == LuhnSum(number) && sum >= 0
  {
    sum := 0;
    for i := 0 to |number|
      invariant sum == LuhnSum(number[..i])
    {
      var digit := (number[i] as int - 48) % 256;
      if i % 2 == 0 {
        digit := digit * 2;
        if digit > 9 {
          digit := digit - 9;
        }
      }
      assert number[..i + 1][..i] == number[..i];
      sum := sum + digit;
    }
    assert number[..|number|] == number;
    LuhnSumNonNegative(number);
  }

  /** `validateLuhn`: the checksum is a multiple of 10. */
  method ValidateLuhn(number: seq<Byte>) returns (ok: bool)
    ensures ok <==> LuhnSum(number) % 10 == 0
  {
    var sum := Checksum(number);
    ok := sum % 10 == 0;
  }

  /* ------------------------------------------ the ISO/IEC 7812-1 Luhn check */

  /**
   * The Luhn formula of ISO/IEC 7812-1, Annex B, counted from the right:
   * the check digit is not doubled, the digit left of it is, and so on.
   * IsoPlain is the sum when the rightmost digit is not doubled, IsoDoubled
   * when it is.
   */
  function IsoPlain(s: seq<Byte>): int
    decreases |s|, 1
  {
    if |s| == 0 then 0 else LuhnValue(s[|s| - 1]) + IsoDoubled(s[..|s| - 1])
  }

  function IsoDoubled(s: seq<Byte>): int
    decreases |s|, 0
  {
    if |s| == 0 then 0 else Doubled(LuhnValue(s[|s| - 1])) + IsoPlain(s[..|s| - 1])
  }

  predicate IsoLuhnValid(s: seq<Byte>) {
    IsoPlain(s) % 10 == 0
  }

  /** Counting from the left at even indices is counting from the right at even positions when the length is even. */
  lemma {:induction false} LuhnSumFromRight(s: seq<Byte>)
    ensures LuhnSum(s) == if |s| % 2 == 0 then IsoPlain(s) else IsoDoubled(s)
  {
    if |s| > 0 {
      LuhnSumFromRight(s[..|s| - 1]);
    }
  }

  /** For numbers of even length, such as 16-digit card numbers, `validateLuhn` is the ISO/IEC 7812-1 check. */
  lemma ValidateLuhnIsIso(s: seq<Byte>)
    requires |s| % 2 == 0
    ensures LuhnSum(s) % 10 == 0 <==> IsoLuhnValid(s)
  {
    LuhnSumFromRight(s);
  }

  /* ---------------------------------------------------- generating numbers */

  /** The ASCII byte of a decimal digit. */
  function DigitByte(d: Digit): Byte {
    48 + d
  }

  predicate IsDigitByte(b: Byte) {
    48 <= b <= 57
  }

  function DigitBytes(ds: seq<Digit>): (s: seq<Byte>)
    ensures |s| == |ds| && forall i :: 0 <= i < |ds| ==> s[i] == DigitByte(ds[i])
  {
    seq(|ds|, i requires 0 <= i < |ds| => DigitByte(ds[i]))
  }

  /** `(10 - sum % 10) % 10` for the checksum of the prefix: 0 when the sum ends in 0, else what brings it to the next ten. */
  function CheckDigit(prefix: seq<Byte>): (d: Digit) {
    var m := LuhnSum(prefix) % 10;
    if m == 0 then 0 else 10 - m
  }

  /** Adding (10 - L mod 10) mod 10 to L gives a multiple of 10. */
  lemma CompletesToTen(sum: int, d: int)
    requires d == (if sum % 10 == 0 then 0 else 10 - sum % 10)
    ensures (sum + d) % 10 == 0 && d == (10 - sum % 10) % 10
  {
    var q, m := sum / 10, sum % 10;
    assert sum == 10 * q + m;
    if m != 0 {
      assert sum + (10 - m) == 10 * (q + 1);
    }
  }

  /** The check digit brings the prefix's sum to a multiple of 10. */
  lemma CheckDigitTopsUp(prefix: seq<Byte>)
    ensures (LuhnSum(prefix) + CheckDigit(prefix)) % 10 == 0
  {
    CompletesToTen(LuhnSum(prefix), CheckDigit(prefix));
  }

  /** A digit appended at an odd index counts with its own value. */
  lemma AppendUndoubled(prefix: seq<Byte>, d: Digit)
    requires |prefix| % 2 == 1
    ensures LuhnSum(prefix + [DigitByte(d)]) == LuhnSum(prefix) + d
  {
    var s := prefix + [DigitByte(d)];
    assert s[..|s| - 1] == prefix;
    assert LuhnValue(DigitByte(d)) == d;
  }

  /** A prefix of odd length followed by its check digit passes the check. */
  lemma CheckDigitCompletes(prefix: seq<Byte>)
    requires |prefix| % 2 == 1
    ensures LuhnSum(prefix + [DigitByte(CheckDigit(prefix))]) % 10 == 0
  {
    var d := CheckDigit(prefix);
    AppendUndoubled(prefix, d);
    CheckDigitTopsUp(prefix);
    assert LuhnSum(prefix + [DigitByte(d)]) == LuhnSum(prefix) + d;
  }

  /**
   * `generateCardNumber` with its fifteen clock readings as input: the
   * readings as digits, then the check digit.
   */
  method GenerateCardNumber(readings: seq<Digit>) returns (number: seq<Byte>)
    requires |readings| == 15
    ensures |number| == 16 && forall i :: 0 <= i < 16 ==> IsDigitByte(number[i])
    ensures number == DigitBytes(readings) + [DigitByte(CheckDigit(DigitBytes(readings)))]
    ensures LuhnSum(number) % 10 == 0 && IsoLuhnValid(number)
  {
    number := [];
    for i := 0 to 15
      invariant number == DigitBytes(readings[..i])
    {
      number := number + [DigitByte(readings[i])];
    }
    assert readings[..15] == readings;
    var sum := Checksum(number);
    var checkDigit := (10 - sum % 10) % 10;
    CheckDigitCompletes(number);
    number := number + [DigitByte(checkDigit)];
    ValidateLuhnIsIso(number);
  }

  /* --------------------------------------------------------------- masking */

  /** " **** **** " in ASCII. */
  const MaskMiddle: seq<Byte> := [32, 42, 42, 42, 42, 32, 42, 42, 42, 42, 32]

  /** `maskCardNumber`: keep the first four and the last four bytes of a 16-byte number. */
  function MaskCardNumber(number: seq<Byte>): (masked: seq<Byte>)
    ensures |number| != 16 ==> masked == number
    ensures |number| == 16 ==> |masked| == 19 && masked[..4] == number[..4] && masked[15..] == number[12..]
    ensures |number| == 16 ==> masked[4..15] == [32, 42, 42, 42, 42, 32, 42, 42, 42, 42, 32]
  {
    if |number| != 16 then number else number[..4] + MaskMiddle + number[12..]
  }

  /** The masked form of a 16-byte number does not depend on its eight middle bytes. */
  lemma MaskHidesMiddle(a: seq<Byte>, b: seq<Byte>)
    requires |a| == 16 && |b| == 16 && a[..4] == b[..4] && a[12..] == b[12..]
    ensures MaskCardNumber(a) == MaskCardNumber(b)
  {
  }

  /* ------------------------------------------------------------ CreateCard */

  datatype CardDto = CardDto(accountId: Id, userId: Id)

  datatype CardError = AccountNotFound | NotAccountHolder | LuhnCheckFailed

  /**
   * `CreateCard` as written, up to the Luhn check: it fails when the number
   * passes the check, and a generated number always passes it.
   */
  method CreateCardAsWritten(accounts: map<Id, Account>, dto: CardDto, readings: seq<Digit>)
      returns (r: Result<seq<Byte>, CardError>)
    requires |readings| == 15
    ensures dto.accountId !in accounts ==> r == Err(AccountNotFound)
    ensures dto.accountId in accounts && accounts[dto.accountId].holderId != dto.userId ==> r == Err(NotAccountHolder)
    ensures dto.accountId in accounts && accounts[dto.accountId].holderId == dto.userId ==> r == Err(LuhnCheckFailed)
    ensures r.Err?
  {
    if dto.accountId !in accounts {
      return Err(AccountNotFound);
    }
    if accounts[dto.accountId].holderId != dto.userId {
      return Err(NotAccountHolder);
    }
    var number := GenerateCardNumber(readings);
    var valid := ValidateLuhn(number);
    if valid {
      return Err(LuhnCheckFailed);
    }
    r := Ok(number);
  }

  /**
   * `CreateCard` with the evidently intended test: a number that fails the
   * Luhn check is refused. On success the card number is returned; its
   * storage and encryption are not part of this model.
   */
  method CreateCard(accounts: map<Id, Account>, dto: CardDto, readings: seq<Digit>)
      returns (r: Result<seq<Byte>, CardError>)
    requires |readings| == 15
    ensures dto.accountId !in accounts ==> r == Err(AccountNotFound)
    ensures dto.accountId in accounts && accounts[dto.accountId].holderId != dto.userId ==> r == Err(NotAccountHolder)
    ensures r.Ok? <==> dto.accountId in accounts && accounts[dto.accountId].holderId == dto.userId
    ensures r.Ok? ==> |r.value| == 16 && IsoLuhnValid(r.value) && r.value[..15] == DigitBytes(readings)
  {
    if dto.accountId !in accounts {
      return Err(AccountNotFound);
    }
    if accounts[dto.accountId].holderId != dto.userId {
      return Err(NotAccountHolder);
    }
    var number := GenerateCardNumber(readings);
    var valid := ValidateLuhn(number);
    if !valid {
      return Err(LuhnCheckFailed);
    }
    r := Ok(number);
  }
}
