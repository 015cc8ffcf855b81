/** The patron handlers of routes/patrons.js, over the patron collection:
    create with the active-phone uniqueness check, update that re-checks the
    phone only when it changes, soft delete, the active-only listing and the
    quick search. */
module PatronRoutes {
  import opened Common
  import opened PatronModel
  import Pagination

  /** What a handler answers, HTTP plumbing aside. */
  datatype Outcome = Ok | Invalid | NotFound | DuplicatePhone | ServerError

  /** The fields of a create or update body. */
  datatype PatronInput = PatronInput(
    name: string,
    phone: string,
    address: Option<string>,
    email: Option<string>,
    emergencyContact: Option<Contact>,
    notes: Option<string>)

  /** validatePatron: each check runs on the trimmed value; name 2..100
      characters, the phone pattern, address at most 200, notes at most 500
      (the email check is not modelled). `isLength` counts code points. */
  predicate PassesValidation(input: PatronInput)
    ensures PassesValidation(input) ==> 1 <= |Trim(input.phone)| <= 17 && Trim(input.name) != []
  {
    && 2 <= |Trim(input.name)| <= 100
    && ValidPhone(Trim(input.phone))
    && (input.address.Some? ==> |Trim(input.address.value)| <= 200)
    && (input.notes.Some? ==> |Trim(input.notes.value)| <= 500)
  }

  /** The schema's `maxlength` limits on the trimmed body, in UTF-16 code
      units: the limits a save or an update with validators applies after
      validatePatron has passed. */
  predicate FitsSchemaLengths(input: PatronInput) {
    && Utf16Length(Trim(input.name)) <= MaxNameLength
    && (input.address.Some? ==> Utf16Length(Trim(input.address.value)) <= MaxAddressLength)
    && (input.notes.Some? ==> Utf16Length(Trim(input.notes.value)) <= MaxNotesLength)
  }

  /** The body the handler reads once the sanitizers have replaced each
      checked field by its trimmed value. */
  function Sanitized(input: PatronInput): PatronInput {
    input.(name := Trim(input.name), phone := Trim(input.phone),
           address := TrimOption(input.address), notes := TrimOption(input.notes))
  }

  /** The document the create handler saves. */
  function Admitted(id: PatronId, input: PatronInput): Patron {
    var s := Sanitized(input);
    NewPatron(id, s.name, s.phone, s.address, s.email, s.emergencyContact, s.notes)
  }

  /** A body validatePatron accepts yields a document the schema accepts
      exactly when its lengths also fit in UTF-16 code units; it is stored
      active, with the phone that was checked for conflicts. */
  lemma AdmittedIsSchemaValid(id: PatronId, input: PatronInput)
    requires PassesValidation(input)
    ensures SchemaValid(Admitted(id, input)) <==> FitsSchemaLengths(input)
    ensures Admitted(id, input).phone == Trim(input.phone) && Admitted(id, input).isActive
  {
    var p := Admitted(id, input);
    assert p.name == Trim(input.name) by {
      TrimIdempotent(input.name);
    }
    assert p.phone == Trim(input.phone) by {
      TrimIdempotent(input.phone);
    }
    assert p.address.Some? ==> p.address.value == Trim(input.address.value) by {
      if input.address.Some? {
        TrimIdempotent(input.address.value);
      }
    }
  }

  /** Sixty bus emoji make a name validatePatron accepts (60 code points)
      but the schema refuses (120 UTF-16 code units). */
  lemma AstralNamePassesOnlyValidation(id: PatronId)
    ensures var input := PatronInput(seq(60, _ => '\U{1F68C}'), "4105550123", None, None, None, None);
            PassesValidation(input) && !FitsSchemaLengths(input) && !SchemaValid(Admitted(id, input))
  {
    SixtyAstralChars();
    var input := PatronInput(seq(60, _ => '\U{1F68C}'), "4105550123", None, None, None, None);
    assert ValidPhone("4105550123");
    AdmittedIsSchemaValid(id, input);
  }

  /** findByIdAndUpdate with the sanitized body: every field the body
      carries is replaced; an absent optional field keeps its stored value;
      `isActive` is not part of the update. */
  function Edited(p: Patron, input: PatronInput): (r: Patron)
    ensures r.id == p.id && r.isActive == p.isActive
    ensures r.name == Trim(input.name) && r.phone == Trim(input.phone)
    ensures r.address == (if input.address.Some? then TrimOption(input.address) else p.address)
    ensures r.notes == (if input.notes.Some? then TrimOption(input.notes) else p.notes)
    ensures r.email == (if input.email.Some? then input.email else p.email)
    ensures r.emergencyContact == (if input.emergencyContact.Some? then input.emergencyContact else p.emergencyContact)
  {
    var s := Sanitized(input);
    p.(name := s.name, phone := s.phone,
       address := if s.address.Some? then s.address else p.address,
       email := if s.email.Some? then s.email else p.email,
       emergencyContact := if s.emergencyContact.Some? then s.emergencyContact else p.emergencyContact,
       notes := if s.notes.Some? then s.notes else p.notes)
  }

  /** An update with a validated body keeps a valid document valid exactly
      when the body's lengths fit in UTF-16 code units. */
  lemma EditedIsSchemaValid(p: Patron, input: PatronInput)
    requires SchemaValid(p) && PassesValidation(input)
    ensures SchemaValid(Edited(p, input)) <==> FitsSchemaLengths(input)
    ensures Edited(p, input).id == p.id && Edited(p, input).isActive == p.isActive
  {
  }

  // ---------------------------------------------------------------------
  // Queries over the stored documents
  // ---------------------------------------------------------------------

  /** `Patron.findOne({ phone, isActive: true })` finds a document. */
  predicate PhoneHeld(docs: seq<Patron>, phone: string)
    ensures PhoneHeld(docs, phone) <==> exists p :: p in ActiveOnly(docs) && p.phone == phone
  {
    exists i :: 0 <= i < |docs| && docs[i].isActive && docs[i].phone == phone
  }

  /** The same query with `_id: { $ne: id }` for the document at k. */
  predicate PhoneHeldByOther(docs: seq<Patron>, phone: string, k: nat)
    ensures PhoneHeldByOther(docs, phone, k) ==> PhoneHeld(docs, phone)
    ensures k >= |docs| ==> (PhoneHeldByOther(docs, phone, k) <==> PhoneHeld(docs, phone))
  {
    exists i :: 0 <= i < |docs| && i != k && docs[i].isActive && docs[i].phone == phone
  }

  /** The update handler's conflict: the phone changes, and another active
      patron holds the new one. */
  predicate PhoneConflict(docs: seq<Patron>, k: nat, phone: string)
    requires k < |docs|
    ensures phone == docs[k].phone ==> !PhoneConflict(docs, k, phone)
    ensures PhoneConflict(docs, k, phone) ==> PhoneHeld(docs, phone)
  {
    phone != docs[k].phone && PhoneHeldByOther(docs, phone, k)
  }

  /** No two active patrons share a phone. */
  predicate ActivePhonesUnique(docs: seq<Patron>) {
    forall i, j :: 0 <= i < j < |docs| && docs[i].isActive && docs[j].isActive ==> docs[i].phone != docs[j].phone
  }

  /** The id of a patron document. */
  function IdOf(p: Patron): string {
    p.id
  }

  /** `{ isActive: true }`: the active documents in stored order. */
  function ActiveOnly(docs: seq<Patron>): (r: seq<Patron>)
    ensures |r| <= |docs|
    ensures forall p :: p in r <==> p in docs && p.isActive
  {
    if docs == [] then []
    else (if docs[0].isActive then [docs[0]] else []) + ActiveOnly(docs[1..])
  }

  /** The active documents the search pattern matches, in stored order. */
  function ActiveMatching(docs: seq<Patron>, matches: Patron -> bool): (r: seq<Patron>)
    ensures |r| <= |docs|
    ensures forall p :: p in r <==> p in docs && p.isActive && matches(p)
  {
    if docs == [] then []
    else (if docs[0].isActive && matches(docs[0]) then [docs[0]] else []) + ActiveMatching(docs[1..], matches)
  }

  /** Soft delete of the document at k. */
  function Deactivate(docs: seq<Patron>, k: nat): (r: seq<Patron>)
    requires k < |docs|
    ensures |r| == |docs| && !r[k].isActive && r[k].id == docs[k].id
    ensures forall i :: 0 <= i < |docs| && i != k ==> r[i] == docs[i]
    ensures !docs[k].isActive ==> r == docs
  {
    docs[k := docs[k].(isActive := false)]
  }

  /** A soft delete keeps every record (same ids, same fields but the flag),
      and doing it twice is doing it once. */
  lemma DeactivateKeepsRecords(docs: seq<Patron>, k: nat)
    requires k < |docs|
    ensures var r := Deactivate(docs, k);
            |r| == |docs| && !r[k].isActive
            && (forall i :: 0 <= i < |docs| ==> r[i].(isActive := docs[i].isActive) == docs[i])
            && Deactivate(r, k) == r
  {
  }

  /** Once its active holder is soft-deleted, a phone is free again: the
      next create with that phone passes the conflict check. */
  lemma DeleteFreesPhone(docs: seq<Patron>, k: nat)
    requires ActivePhonesUnique(docs) && k < |docs| && docs[k].isActive
    ensures !PhoneHeld(Deactivate(docs, k), docs[k].phone)
  {
    var r := Deactivate(docs, k);
    forall i | 0 <= i < |r| && r[i].isActive ensures r[i].phone != docs[k].phone {
      assert i != k;
      if i < k {
        assert docs[i].phone != docs[k].phone;
      } else {
        assert docs[k].phone != docs[i].phone;
      }
    }
  }

  /** The collection's invariant: ids are distinct ObjectIds, every
      document passed the schema, and no two active patrons share a phone. */
  ghost predicate ValidDocs(docs: seq<Patron>) {
    && (forall i, j :: 0 <= i < j < |docs| ==> docs[i].id != docs[j].id)
    && (forall i :: 0 <= i < |docs| ==> IsObjectIdText(docs[i].id) && SchemaValid(docs[i]))
    && ActivePhonesUnique(docs)
  }

  /** A create that passed its checks keeps the invariant. */
  lemma CreateKeepsValid(docs: seq<Patron>, id: PatronId, input: PatronInput)
    requires ValidDocs(docs) && PassesValidation(input)
    requires IsObjectIdText(id) && IndexOfKey(docs, IdOf, id).None?
    requires !PhoneHeld(docs, Trim(input.phone)) && FitsSchemaLengths(input)
    ensures ValidDocs(docs + [Admitted(id, input)])
  {
    var p := Admitted(id, input);
    AdmittedIsSchemaValid(id, input);
    var r := docs + [p];
    assert forall i :: 0 <= i < |docs| ==> r[i] == docs[i];
    assert r[|docs|] == p;
    forall i, j | 0 <= i < j < |r| ensures r[i].id != r[j].id {
      if j == |docs| {
        assert docs[i].id != id;
      }
    }
    forall i | 0 <= i < |r| ensures IsObjectIdText(r[i].id) && SchemaValid(r[i]) {
    }
    forall i, j | 0 <= i < j < |r| && r[i].isActive && r[j].isActive
      ensures r[i].phone != r[j].phone
    {
      if j == |docs| {
        assert docs[i].isActive;
      }
    }
  }

  /** An update that passed its checks keeps the invariant: either the phone
      is unchanged, or no other active patron holds the new one. */
  lemma UpdateKeepsValid(docs: seq<Patron>, k: nat, input: PatronInput)
    requires ValidDocs(docs) && PassesValidation(input) && FitsSchemaLengths(input) && k < |docs|
    requires Trim(input.phone) == docs[k].phone || !PhoneHeldByOther(docs, Trim(input.phone), k)
    ensures ValidDocs(docs[k := Edited(docs[k], input)])
  {
    EditedIsSchemaValid(docs[k], input);
    var r := docs[k := Edited(docs[k], input)];
    forall i, j | 0 <= i < j < |r| && r[i].isActive && r[j].isActive
      ensures r[i].phone != r[j].phone
    {
      if i != k && j != k {
        assert r[i] == docs[i] && r[j] == docs[j];
      } else if Trim(input.phone) == docs[k].phone {
        assert r[i].phone == docs[i].phone && r[j].phone == docs[j].phone;
      } else if i == k {
        assert r[j] == docs[j];
      } else {
        assert r[i] == docs[i];
      }
    }
  }

  /** A soft delete keeps the invariant. */
  lemma DeactivateKeepsValid(docs: seq<Patron>, k: nat)
    requires ValidDocs(docs) && k < |docs|
    ensures ValidDocs(Deactivate(docs, k))
  {
    var r := Deactivate(docs, k);
    forall i, j | 0 <= i < j < |r| && r[i].isActive && r[j].isActive
      ensures r[i].phone != r[j].phone
    {
      assert r[i] == docs[i] && r[j] == docs[j];
    }
  }

  // ---------------------------------------------------------------------
  // The collection and its handlers
  // ---------------------------------------------------------------------

  class PatronCollection {
    var docs: seq<Patron>

    ghost predicate Valid()
      reads this
    {
      ValidDocs(docs)
    }

    constructor ()
      ensures Valid() && docs == []
    {
      docs := [];
    }

    /** Patron.findById(ref): the ObjectId cast of `ref`, then the lookup. */
    function FindById(ref: string): (r: Option<nat>)
      reads this
      ensures r.Some? ==> IsCastableId(ref) && r.value < |docs| && docs[r.value].id == CanonicalId(ref)
      ensures r.None? && IsCastableId(ref) ==> forall i :: 0 <= i < |docs| ==> docs[i].id != CanonicalId(ref)
    {
      if IsCastableId(ref) then IndexOfKey(docs, IdOf, CanonicalId(ref)) else None
    }

    /** POST /: validate, refuse a phone an active patron holds, then save
        a new active patron under the id the database assigns; a save the
        schema refuses is a server error. */
    method Create(id: PatronId, input: PatronInput) returns (o: Outcome)
      requires Valid()
      requires IsObjectIdText(id) && IndexOfKey(docs, IdOf, id).None?
      modifies this
      ensures Valid()
      ensures o == Invalid <==> !PassesValidation(input)
      ensures o == DuplicatePhone <==> PassesValidation(input) && PhoneHeld(old(docs), Trim(input.phone))
      ensures o == ServerError <==>
                PassesValidation(input) && !PhoneHeld(old(docs), Trim(input.phone)) && !FitsSchemaLengths(input)
      ensures o == Ok <==>
                PassesValidation(input) && !PhoneHeld(old(docs), Trim(input.phone)) && FitsSchemaLengths(input)
      ensures o == Ok ==> docs == old(docs) + [Admitted(id, input)]
      ensures o == Ok ==> docs[|docs| - 1].isActive && docs[|docs| - 1].phone == Trim(input.phone)
      ensures o != Ok ==> docs == old(docs)
    {
      if !PassesValidation(input) {
        return Invalid;
      }
      var phone := Trim(input.phone);
      if PhoneHeld(docs, phone) {
        return DuplicatePhone;
      }
      AdmittedIsSchemaValid(id, input);
      if !SchemaValid(Admitted(id, input)) {
        return ServerError;
      }
      CreateKeepsValid(docs, id, input);
      docs := docs + [Admitted(id, input)];
      o := Ok;
    }

    /** PUT /:id: validate, find, re-check the phone against the other
        active patrons only when it differs from the stored one, then
        update; an update the schema's validators refuse is a server
        error. */
    method Update(ref: string, input: PatronInput) returns (o: Outcome)
      requires Valid()
      modifies this
      ensures Valid()
      ensures o == Invalid <==> !PassesValidation(input)
      ensures o == NotFound <==> PassesValidation(input) && old(FindById(ref)).None?
      ensures o == DuplicatePhone <==>
                PassesValidation(input) && old(FindById(ref)).Some?
                && PhoneConflict(old(docs), old(FindById(ref)).value, Trim(input.phone))
      ensures o == ServerError <==>
                PassesValidation(input) && old(FindById(ref)).Some?
                && !PhoneConflict(old(docs), old(FindById(ref)).value, Trim(input.phone))
                && !FitsSchemaLengths(input)
      ensures o == Ok <==>
                PassesValidation(input) && old(FindById(ref)).Some?
                && !PhoneConflict(old(docs), old(FindById(ref)).value, Trim(input.phone))
                && FitsSchemaLengths(input)
      ensures o == Ok ==> var k := old(FindById(ref)).value;
                          docs == old(docs)[k := Edited(old(docs)[k], input)]
      ensures o != Ok ==> docs == old(docs)
    {
      if !PassesValidation(input) {
        return Invalid;
      }
      var found := FindById(ref);
      if found.None? {
        return NotFound;
      }
      var k := found.value;
      var phone := Trim(input.phone);
      if PhoneConflict(docs, k, phone) {
        return DuplicatePhone;
      }
      EditedIsSchemaValid(docs[k], input);
      if !SchemaValid(Edited(docs[k], input)) {
        return ServerError;
      }
      UpdateKeepsValid(docs, k, input);
      docs := docs[k := Edited(docs[k], input)];
      o := Ok;
    }

    /** DELETE /:id: set `isActive` to false; the record stays. */
    method SoftDelete(ref: string) returns (o: Outcome)
      requires Valid()
      modifies this
      ensures Valid()
      ensures o == NotFound <==> old(FindById(ref)).None?
      ensures o == Ok <==> old(FindById(ref)).Some?
      ensures o == Ok ==> docs == Deactivate(old(docs), old(FindById(ref)).value)
      ensures o != Ok ==> docs == old(docs)
    {
      var found := FindById(ref);
      if found.None? {
        return NotFound;
      }
      DeactivateKeepsValid(docs, found.value);
      docs := Deactivate(docs, found.value);
      o := Ok;
    }

    /** GET /: one page of the active patrons and the page count. */
    function List(page: int, limit: int): (r: (seq<Patron>, nat))
      reads this
      requires page >= 1 && limit >= 1
      ensures |r.0| <= limit
      ensures forall p :: p in r.0 ==> p in docs && p.isActive
      ensures r.1 == 0 <==> forall i :: 0 <= i < |docs| ==> !docs[i].isActive
      ensures r.1 * limit >= |ActiveOnly(docs)|
      ensures r == (Pagination.PageOf(ActiveOnly(docs), page, limit), Pagination.TotalPages(|ActiveOnly(docs)|, limit))
    {
      var active := ActiveOnly(docs);
      assert active != [] ==> active[0] in active;
      assert forall i :: 0 <= i < |docs| && docs[i].isActive ==> docs[i] in active;
      (Pagination.PageOf(active, page, limit), Pagination.TotalPages(|active|, limit))
    }

    /** GET /search/quick: nothing for a missing query or one shorter than
        two UTF-16 code units (`q.length`);
        otherwise at most ten active patrons the pattern matches. */
    function QuickSearch(q: Option<string>, matches: Patron -> bool): (r: seq<Patron>)
      reads this
      ensures q.None? || Utf16Length(q.value) < 2 ==> r == []
      ensures |r| <= 10
      ensures forall p :: p in r ==> p in docs && p.isActive && matches(p)
      ensures q.Some? && Utf16Length(q.value) >= 2 ==> |r| == Pagination.Min(10, |ActiveMatching(docs, matches)|)
      ensures r == ActiveMatching(docs, matches)[..|r|]
    {
      if q.None? || Utf16Length(q.value) < 2 then []
      else
        var all := ActiveMatching(docs, matches);
        all[..Pagination.Min(10, |all|)]
    }
  }
}
