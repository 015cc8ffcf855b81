/** The patron document of models/Patron.js: its fields, the checks its
    schema runs before a save (required, trim, maxlength, the phone pattern),
    the `isActive` default and the `fullInfo` virtual. */
module PatronModel {
  import opened Common

  datatype Contact = Contact(name: Option<string>, phone: Option<string>, relationship: Option<string>)

  datatype Patron = Patron(
    id: PatronId,
    name: string,
    phone: string,
    address: Option<string>,
    email: Option<string>,
    emergencyContact: Option<Contact>,
    notes: Option<string>,
    isActive: bool)

  const MaxNameLength: nat := 100
  const MaxAddressLength: nat := 200
  const MaxNotesLength: nat := 500

  // ---------------------------------------------------------------------
  // The phone pattern /^[\+]?[1-9][\d]{0,15}$/
  // ---------------------------------------------------------------------

  /** The digits of a phone string: everything after an optional leading
      plus sign. */
  function PhoneDigits(s: string): (d: string)
    ensures d == s || (s != [] && s[0] == '+' && d == s[1..])
  {
    if |s| > 0 && s[0] == '+' then s[1..] else s
  }

  /** An optional `+`, one digit 1-9, then at most fifteen more digits
      (`\d` is ASCII 0-9 in a JavaScript pattern without the `u` flag). */
  predicate ValidPhone(s: string)
    ensures ValidPhone(s) ==> 1 <= |s| <= 17 && (s[0] == '+' || '1' <= s[0] <= '9')
  {
    var d := PhoneDigits(s);
    1 <= |d| <= 16 && '1' <= d[0] <= '9' && AllDigits(d)
  }

  /** A valid phone is a plus sign or a digit, then only digits: in
      particular it contains no space, hyphen or other separator. */
  lemma ValidPhoneCharacters(s: string)
    requires ValidPhone(s)
    ensures forall i :: 0 <= i < |s| ==> IsDigit(s[i]) || (i == 0 && s[i] == '+')
    ensures 1 <= |s| <= 17 && Trimmed(s)
  {
    var d := PhoneDigits(s);
    if s[0] == '+' {
      forall i | 1 <= i < |s| ensures IsDigit(s[i]) {
        assert s[i] == d[i - 1];
      }
    }
  }

  /** The sample phone of the seed script, written with hyphens, fails the
      pattern; so do a leading zero, a bare plus sign and seventeen digits. */
  lemma PhonePatternExamples()
    ensures !ValidPhone("410-555-0123")
    ensures ValidPhone("4105550123") && ValidPhone("+14105550123")
    ensures !ValidPhone("04105550123") && !ValidPhone("+") && !ValidPhone("")
    ensures ValidPhone("1234567890123456") && !ValidPhone("12345678901234567")
  {
    assert PhoneDigits("410-555-0123")[3] == '-';
  }

  // ---------------------------------------------------------------------
  // Schema checks and defaults
  // ---------------------------------------------------------------------

  /** What the schema demands of a stored patron (the email pattern aside):
      a non-empty trimmed name, a trimmed phone matching the pattern and a
      trimmed address; `maxlength` counts UTF-16 code units, at most 100 for
      the name, 200 for the address and 500 for the notes. */
  predicate SchemaValid(p: Patron)
    ensures SchemaValid(p) ==>
              1 <= |p.name| <= MaxNameLength && 1 <= |p.phone| <= 17
              && (p.address.Some? ==> |p.address.value| <= MaxAddressLength)
              && (p.notes.Some? ==> |p.notes.value| <= MaxNotesLength)
  {
    && p.name != [] && Trimmed(p.name) && Utf16Length(p.name) <= MaxNameLength
    && Trimmed(p.phone) && ValidPhone(p.phone)
    && (p.address.Some? ==> Trimmed(p.address.value) && Utf16Length(p.address.value) <= MaxAddressLength)
    && (p.notes.Some? ==> Utf16Length(p.notes.value) <= MaxNotesLength)
  }

  /** `new Patron({...})`: the `trim` setters on name, phone and address,
      and `isActive` defaulting to true. */
  function NewPatron(id: PatronId, name: string, phone: string, address: Option<string>,
                     email: Option<string>, emergencyContact: Option<Contact>,
                     notes: Option<string>): (p: Patron)
    ensures p.id == id && p.isActive
    ensures p.name == Trim(name) && p.phone == Trim(phone) && p.address == TrimOption(address)
    ensures Trimmed(p.name) && Trimmed(p.phone)
    ensures p.address.Some? <==> address.Some?
    ensures p.address.Some? ==> Trimmed(p.address.value)
    ensures p.email == email && p.emergencyContact == emergencyContact && p.notes == notes
  {
    Patron(id, Trim(name), Trim(phone), TrimOption(address), email, emergencyContact, notes, true)
  }

  // ---------------------------------------------------------------------
  // The fullInfo virtual
  // ---------------------------------------------------------------------

  /** `${name} - ${phone}` */
  function FullInfo(p: Patron): (r: string)
    ensures |r| == |p.name| + 3 + |p.phone|
    ensures r[..|p.name|] == p.name && r[|r| - |p.phone|..] == p.phone
  {
    p.name + " - " + p.phone
  }

  /** The characters after the last space of a string. */
  function LastWord(s: string): (r: string)
    ensures |r| <= |s| && r == s[|s| - |r|..]
    ensures forall i :: 0 <= i < |r| ==> r[i] != ' '
    ensures |r| < |s| ==> s[|s| - |r| - 1] == ' '
  {
    if s == [] || s[|s| - 1] == ' ' then []
    else LastWord(s[..|s| - 1]) + [s[|s| - 1]]
  }

  lemma {:induction false} LastWordOfSpaceFree(a: string, w: string)
    requires forall i :: 0 <= i < |w| ==> w[i] != ' '
    ensures LastWord(a + " " + w) == w
    decreases |w|
  {
    if w == [] {
      assert a + " " + w == a + " ";
    } else {
      var s := a + " " + w;
      assert s[..|s| - 1] == a + " " + w[..|w| - 1];
      LastWordOfSpaceFree(a, w[..|w| - 1]);
      assert w == w[..|w| - 1] + [w[|w| - 1]];
    }
  }

  /** fullInfo can be taken apart again: its last word is the phone, and
      what precedes the " - " separator is the name, whatever the name
      contains. */
  lemma FullInfoSplits(p: Patron)
    requires ValidPhone(p.phone)
    ensures LastWord(FullInfo(p)) == p.phone
    ensures FullInfo(p)[..|FullInfo(p)| - |p.phone| - 3] == p.name
  {
    ValidPhoneCharacters(p.phone);
    assert FullInfo(p) == (p.name + " -") + " " + p.phone;
    LastWordOfSpaceFree(p.name + " -", p.phone);
    assert FullInfo(p)[..|p.name|] == p.name;
  }
}
