/** The default alphabet of GSM 03.38 and its reverse table (GSMCommon.h, GSMCommon.cpp). */
module GsmAlphabet {
  /** Entry i of gGSMAlphabet, the terminating NUL of the C string included. */
  function Entry(i: nat): (code: nat)
    requires i <= 128
    ensures code < 256
  {
    if 32 <= i <= 35 || 37 <= i <= 63 || 65 <= i <= 90 || 97 <= i <= 122 then i
    else
      match i
      case 0 => 64 case 1 => 163 case 2 => 36 case 3 => 165 case 4 => 232 case 5 => 233 case 6 => 249
      case 7 => 236 case 8 => 242 case 9 => 231 case 10 => 10 case 11 => 216 case 12 => 248 case 13 => 13
      case 14 => 197 case 15 => 229 case 16 => 68 case 17 => 95 case 18 => 70 case 19 => 71 case 20 => 76
      case 21 => 79 case 22 => 80 case 23 => 67 case 24 => 83 case 25 => 84 case 26 => 90 case 27 => 32
      case 28 => 198 case 29 => 230 case 30 => 223 case 31 => 201 case 36 => 164 case 64 => 161
      case 91 => 196 case 92 => 214 case 93 => 209 case 94 => 220 case 95 => 167 case 96 => 191
      case 123 => 228 case 124 => 246 case 125 => 241 case 126 => 252 case 127 => 225
      case _ => 0
  }

  /** decodeGSMChar, on a septet. */
  function DecodeGsmChar(sms: nat): char
    requires sms < 128
  {
    Entry(sms) as char
  }

  /** The characters that the alphabet has. */
  ghost predicate InAlphabet(c: char) {
    exists sms: nat :: sms < 128 && DecodeGsmChar(sms) == c
  }

  /** The reverse table after the first n passes of the loop that fills it: the last entry wins. */
  function Reverse(code: nat, n: nat): (gsm: nat)
    requires n <= 129
    ensures gsm <= 128
  {
    if n == 0 then (if code == 0 then 63 else 0)
    else if Entry(n - 1) == code then n - 1
    else Reverse(code, n - 1)
  }

  /** encodeGSMChar */
  function EncodeGsmChar(c: char): (gsm: nat)
    ensures gsm <= 128
  {
    Reverse(c as nat, 129)
  }

  /** The seven bits of it that are written. */
  function Septet(c: char): (s: nat)
    ensures s < 128
  {
    EncodeGsmChar(c) % 128
  }

  /** The table finds an index of every character it has, and 0 for the others. */
  lemma {:induction false} ReverseFinds(code: nat, n: nat)
    requires n <= 129 && code != 0
    ensures var gsm := Reverse(code, n);
            || (gsm < n && Entry(gsm) == code)
            || (gsm == 0 && forall i: nat :: i < n ==> Entry(i) != code)
  {
    if n > 0 && Entry(n - 1) != code {
      ReverseFinds(code, n - 1);
    }
  }

  lemma EncodeFinds(c: char, sms: nat)
    requires c as nat != 0 && sms < 128 && Entry(sms) == c as nat
    ensures Septet(c) == EncodeGsmChar(c) && Entry(Septet(c)) == c as nat
  {
    ReverseFinds(c as nat, 129);
    assert Entry(128) == 0;
  }

  /** A non-NUL character survives encoding and decoding exactly when the alphabet has it. */
  lemma CharRoundTrip(c: char)
    requires c as nat != 0
    ensures DecodeGsmChar(Septet(c)) == c <==> InAlphabet(c)
  {
    if InAlphabet(c) {
      var sms: nat :| sms < 128 && DecodeGsmChar(sms) == c;
      EncodeFinds(c, sms);
    }
  }

  /** Characters without a place in the alphabet are all sent as the at sign. */
  lemma MissingBecomesAt(c: char)
    requires c as nat != 0 && !InAlphabet(c)
    ensures DecodeGsmChar(Septet(c)) == '@'
  {
    ReverseFinds(c as nat, 129);
    assert Entry(128) == 0 && Entry(0) == 64;
    assert EncodeGsmChar(c) < 128 ==> DecodeGsmChar(EncodeGsmChar(c)) as nat == Entry(EncodeGsmChar(c));
  }

  predicate IsBasic(c: char) {
    ' ' <= c <= '#' || '%' <= c <= '?' || 'A' <= c <= 'Z' || 'a' <= c <= 'z'
  }

  /** Letters, digits and common punctuation keep their ASCII code, although some of them also
      stand in for Greek capitals earlier in the table. */
  lemma {:induction false} BasicStays(c: char, n: nat)
    requires IsBasic(c) && c as nat < n <= 129
    ensures Reverse(c as nat, n) == c as nat
  {
    if n - 1 > c as nat {
      BasicStays(c, n - 1);
    }
  }

  lemma BasicIsItself(c: char)
    requires IsBasic(c)
    ensures Septet(c) == c as nat && InAlphabet(c)
  {
    BasicStays(c, 129);
    assert DecodeGsmChar(c as nat) == c;
  }

  // ---- The table as it is printed ----

  /** Row r of the alphabet: the characters of the septets 16 r to 16 r + 15, in ISO 8859-1. The Greek
      capitals of GSM 03.38 are replaced by Latin ones, the escape by a space. */
  function Row(r: nat): (row: string)
    requires r < 8
    ensures |row| == 16
  {
    match r
    case 0 => "@\U{A3}$\U{A5}\U{E8}\U{E9}\U{F9}\U{EC}\U{F2}\U{E7}\n\U{D8}\U{F8}\r\U{C5}\U{E5}"
    case 1 => "D_FGLOPCSTZ \U{C6}\U{E6}\U{DF}\U{C9}"
    case 2 => " !\"#\U{A4}%&'()*+,-./"
    case 3 => "0123456789:;<=>?"
    case 4 => "\U{A1}ABCDEFGHIJKLMNO"
    case 5 => "PQRSTUVWXYZ\U{C4}\U{D6}\U{D1}\U{DC}\U{A7}"
    case 6 => "\U{BF}abcdefghijklmno"
    case _ => "pqrstuvwxyz\U{E4}\U{F6}\U{F1}\U{FC}\U{E1}"
  }

  lemma FirstRows(row: nat, column: nat)
    requires row < 2 && column < 16
    ensures Entry(16 * row + column) == Row(row)[column] as nat
  {
  }

  lemma SignRows(row: nat, column: nat)
    requires 2 <= row < 4 && column < 16
    ensures Entry(16 * row + column) == Row(row)[column] as nat
  {
  }

  lemma CapitalRows(row: nat, column: nat)
    requires 4 <= row < 6 && column < 16
    ensures Entry(16 * row + column) == Row(row)[column] as nat
  {
  }

  lemma SmallRows(row: nat, column: nat)
    requires 6 <= row < 8 && column < 16
    ensures Entry(16 * row + column) == Row(row)[column] as nat
  {
  }

  /** Every septet decodes to its character in the printed alphabet. */
  lemma AlphabetAsPrinted(row: nat, column: nat)
    requires row < 8 && column < 16
    ensures DecodeGsmChar(16 * row + column) == Row(row)[column]
  {
    if row < 2 {
      FirstRows(row, column);
    } else if row < 4 {
      SignRows(row, column);
    } else if row < 6 {
      CapitalRows(row, column);
    } else {
      SmallRows(row, column);
    }
  }

  /** A septet whose character stands for a Greek capital or the escape, and is found elsewhere. */
  predicate IsStandIn(sms: nat) {
    16 <= sms <= 27 && sms != 17
  }

  /** The reverse table keeps the last place of a character. */
  lemma {:induction false} LastPlaceWins(sms: nat, n: nat)
    requires sms < n <= 129 && Entry(sms) != 0
    requires forall i: nat :: sms < i < n ==> Entry(i) != Entry(sms)
    ensures Reverse(Entry(sms), n) == sms
  {
    if sms < n - 1 {
      LastPlaceWins(sms, n - 1);
    }
  }

  /** All other characters stand in one place only, or last there. */
  lemma StandsLast(sms: nat, i: nat)
    requires sms < i <= 128 && !IsStandIn(sms)
    ensures Entry(i) != Entry(sms)
  {
  }

  /** Each character of the printed alphabet is sent as its own place, but a stand-in as the Latin
      letter or the space that it is. */
  lemma EncodedAsPrinted(row: nat, column: nat)
    requires row < 8 && column < 16
    ensures var c := Row(row)[column];
            Septet(c) == if IsStandIn(16 * row + column) then c as nat else 16 * row + column
  {
    var sms := 16 * row + column;
    AlphabetAsPrinted(row, column);
    if IsStandIn(sms) {
      BasicIsItself(Row(row)[column]);
    } else {
      forall i: nat | sms < i < 129
        ensures Entry(i) != Entry(sms)
      {
        StandsLast(sms, i);
      }
      LastPlaceWins(sms, 129);
    }
  }

  /** The characters that are not at their ASCII place. */
  lemma MovedCharacters()
    ensures Septet('@') == 0 && Septet('$') == 2 && Septet('_') == 17 && Septet('\n') == 10 && Septet('\r') == 13
  {
    EncodedAsPrinted(0, 0);
    EncodedAsPrinted(0, 2);
    EncodedAsPrinted(1, 1);
    EncodedAsPrinted(0, 10);
    EncodedAsPrinted(0, 13);
  }

  /** encodeGSMChar with its table, filled on the first call. */
  class Encoder {
    var reverseTable: array<nat>
    var ready: bool

    ghost predicate Valid()
      reads this, reverseTable
    {
      && reverseTable.Length == 256
      && forall code: nat :: code < 256 ==> reverseTable[code] == Reverse(code, if ready then 129 else 0)
    }

    constructor ()
      ensures Valid() && fresh(reverseTable)
    {
      reverseTable := new nat[256](i => if i == 0 then 63 else 0);
      ready := false;
    }

    method Encode(ascii: char) returns (gsm: nat)
      requires Valid() && ascii as nat < 256
      modifies this, reverseTable
      ensures Valid() && reverseTable == old(reverseTable) && ready
      ensures gsm == EncodeGsmChar(ascii)
    {
      if !ready {
        for i := 0 to 129
          invariant reverseTable == old(reverseTable) && reverseTable.Length == 256
          invariant forall code: nat :: code < 256 ==> reverseTable[code] == Reverse(code, i)
        {
          reverseTable[Entry(i)] := i;
        }
        ready := true;
      }
      gsm := reverseTable[ascii as nat];
    }
  }
}
