/**
 * The write path of the expense controller: creating an expense and updating
 * a stored one.
 *
 * Creation checks three required fields and a positive amount. An update runs
 * a fixed sequence of checks on the request, each of which can reject it, and
 * changes the loaded document field by field; a changed amount without new
 * participants re-splits the existing participants into equal exact shares.
 * Nothing is saved unless every check passes, so a rejected update leaves the
 * stored expense as it was.
 *
 * `UpdateSpec` is the reference definition of the update; `UpdateExpense` is
 * the handler, mutating an `ExpenseDocument` step by step, proved to compute
 * exactly that definition. The lemmas state what an update does to each field.
 */
module ExpenseController {
  import opened Wrappers
  import opened Money
  import opened ExpenseModel

  // ---------------------------------------------------------------------
  // Request bodies
  // ---------------------------------------------------------------------

  /** A value of a parsed JSON request body. */
  datatype Json =
    | JNull
    | JBool(b: bool)
    | JNum(n: real)
    | JStr(s: string)
    | JArr(items: seq<Json>)
    | JObj(fields: map<string, Json>)

  /** Property access: a missing property, or one read off a non-object, is `undefined` (`None`). */
  function Field(j: Json, key: string): (r: Option<Json>)
    ensures r.Some? <==> j.JObj? && key in j.fields
  {
    if j.JObj? && key in j.fields then Some(j.fields[key]) else None
  }

  /** JavaScript truthiness of a possibly `undefined` value. */
  predicate Truthy(v: Option<Json>)
  {
    match v
    case None => false
    case Some(JNull) => false
    case Some(JBool(b)) => b
    case Some(JNum(n)) => n != 0.0
    case Some(JStr(s)) => s != ""
    case Some(_) => true
  }

  /** The characters `String.prototype.trim` removes: white space and line terminators. */
  predicate IsJsWhitespace(c: char)
  {
    c == ' ' || c == '\t' || c == '\n' || c == '\U{0B}' || c == '\U{0C}' || c == '\r'
    || c == '\U{A0}' || c == '\U{1680}' || ('\U{2000}' <= c <= '\U{200A}')
    || c == '\U{2028}' || c == '\U{2029}' || c == '\U{202F}' || c == '\U{205F}'
    || c == '\U{3000}' || c == '\U{FEFF}'
  }

  /** `s.trim() === ''`. */
  predicate IsBlank(s: string)
  {
    forall i :: 0 <= i < |s| ==> IsJsWhitespace(s[i])
  }

  /** Why a request is refused. */
  datatype Rejection =
    | MissingFields          // description, amount or paidBy missing or falsy
    | NonPositiveAmount
    | NotFound
    | EmptyDescription       // not a string, or blank
    | EmptyPaidBy            // not a string, or blank
    | ParticipantsNotArray
    | MissingNameOrShare
    | EmptyParticipantName   // not a string, or blank
    | InvalidShare           // not a number, or negative
    | ServerError            // a `null` participant entry: reading its `name` throws
    | SaveRejected           // a participant type outside the enum, refused when saved

  // ---------------------------------------------------------------------
  // Creating an expense
  // ---------------------------------------------------------------------

  /** The body of a create request, each field absent (`None`) or of its schema type. */
  datatype AddRequest = AddRequest(
    description: Option<string>,
    amount: Option<real>,
    paidBy: Option<string>,
    participants: Option<seq<Participant>>)

  /**
   * The expense `addExpense` stores for a request, or why it refuses it. An
   * amount of 0 is refused as missing, so the positivity check only ever
   * refuses negative amounts.
   */
  function AddExpense(req: AddRequest): (r: Result<Expense, Rejection>)
    ensures r.Success? <==>
      req.description.Some? && req.description.value != ""
      && req.paidBy.Some? && req.paidBy.value != ""
      && req.amount.Some? && req.amount.value > 0.0
    ensures r.Success? ==>
      r.value.description == req.description.value && r.value.amount == req.amount.value
      && r.value.paidBy == req.paidBy.value
      && r.value.participants == (if req.participants.Some? then req.participants.value else [])
    ensures r.Failure? ==> r.error == MissingFields || r.error == NonPositiveAmount
    ensures r == Failure(NonPositiveAmount) <==>
      req.description.Some? && req.description.value != ""
      && req.paidBy.Some? && req.paidBy.value != ""
      && req.amount.Some? && req.amount.value < 0.0
  {
    if req.description.None? || req.description.value == ""
      || req.amount.None? || req.amount.value == 0.0
      || req.paidBy.None? || req.paidBy.value == ""
    then Failure(MissingFields)
    else if req.amount.value <= 0.0 then Failure(NonPositiveAmount)
    else Success(Expense(req.description.value, req.amount.value, req.paidBy.value,
                         if req.participants.Some? then req.participants.value else []))
  }

  // ---------------------------------------------------------------------
  // Participant entries of an update
  // ---------------------------------------------------------------------

  /** An entry the update accepts: an object with a non-blank string name and a non-negative number share. */
  predicate WellFormedEntry(p: Json)
  {
    p.JObj?
    && "name" in p.fields && p.fields["name"].JStr? && !IsBlank(p.fields["name"].s)
    && "share" in p.fields && p.fields["share"].JNum? && p.fields["share"].n >= 0.0
  }

  /** The checks one participant entry goes through, in order; `None` when it passes. */
  function CheckEntry(p: Json): (r: Option<Rejection>)
    ensures r.None? <==> WellFormedEntry(p)
  {
    if p.JNull? then Some(ServerError)
    else
      var name, share := Field(p, "name"), Field(p, "share");
      if !Truthy(name) || share.None? then Some(MissingNameOrShare)
      else if !name.value.JStr? || IsBlank(name.value.s) then Some(EmptyParticipantName)
      else if !share.value.JNum? || share.value.n < 0.0 then Some(InvalidShare)
      else None
  }

  /** The entries loop: the rejection of the first entry that fails, if any. */
  function CheckEntries(items: seq<Json>): (r: Option<Rejection>)
    ensures r.None? <==> forall i :: 0 <= i < |items| ==> WellFormedEntry(items[i])
    ensures r.Some? ==> exists i :: (0 <= i < |items| && r == CheckEntry(items[i])
      && forall j :: 0 <= j < i ==> WellFormedEntry(items[j]))
    decreases |items|
  {
    if items == [] then None
    else if CheckEntry(items[0]).Some? then CheckEntry(items[0])
    else
      var r := CheckEntries(items[1..]);
      assert r.Some? ==> exists i :: (0 <= i < |items[1..]| && r == CheckEntry(items[1..][i])
        && (forall j :: 0 <= j < i ==> WellFormedEntry(items[1..][j]))
        && 0 <= i + 1 < |items| && r == CheckEntry(items[i + 1])
        && forall j :: 0 <= j < i + 1 ==> WellFormedEntry(items[j]));
      r
  }

  /** A `type` the schema's enum admits: none given (the default applies) or one of the three spellings. */
  predicate TypeAccepted(t: Option<Json>)
  {
    t.None? || (t.value.JStr? && t.value.s in {"percentage", "exact", "share"})
  }

  /** The participant a well-formed entry is stored as, when its `type` is admitted. */
  function CastParticipant(p: Json): (r: Option<Participant>)
    ensures r.Some? <==> WellFormedEntry(p) && TypeAccepted(Field(p, "type"))
    ensures r.Some? ==> r.value.name == p.fields["name"].s && r.value.share == p.fields["share"].n
    ensures r.Some? && "type" !in p.fields ==> r.value.splitType == DefaultSplitType
    ensures r.Some? && "type" in p.fields ==> SplitTypeName(r.value.splitType) == p.fields["type"].s
  {
    if !WellFormedEntry(p) then None
    else
      var name, share := p.fields["name"].s, p.fields["share"].n;
      match Field(p, "type")
      case None => Some(Participant(name, share, DefaultSplitType))
      case Some(t) =>
        if t.JStr? && ParseSplitType(t.s).Some? then Some(Participant(name, share, ParseSplitType(t.s).value))
        else None
  }

  /** The participant list a list of entries is stored as, or `None` when one of them is refused. */
  function CastParticipants(items: seq<Json>): (r: Option<seq<Participant>>)
    ensures r.Some? <==> forall i :: 0 <= i < |items| ==> CastParticipant(items[i]).Some?
    ensures r.Some? ==> |r.value| == |items| && forall i :: 0 <= i < |items| ==> CastParticipant(items[i]) == Some(r.value[i])
    decreases |items|
  {
    if items == [] then Some([])
    else
      match CastParticipant(items[0])
      case None => None
      case Some(p) =>
        match CastParticipants(items[1..])
        case None => None
        case Some(ps) => Some([p] + ps)
  }

  /** The equal re-split: every participant keeps its entry with `share` replaced and type "exact". */
  function Resplit(ps: seq<Participant>, share: real): (r: seq<Participant>)
    ensures |r| == |ps|
    ensures forall i :: 0 <= i < |ps| ==> r[i] == Participant(ps[i].name, share, Exact)
  {
    seq(|ps|, i requires 0 <= i < |ps| => ps[i].(share := share, splitType := Exact))
  }

  // ---------------------------------------------------------------------
  // Updating an expense
  // ---------------------------------------------------------------------

  /** The body of an update request; `None` is a field left `undefined`. */
  datatype UpdateRequest = UpdateRequest(
    description: Option<Json>,
    amount: Option<real>,
    paidBy: Option<Json>,
    participants: Option<Json>)

  /** A supplied description or payer is accepted when it is a non-blank string. */
  predicate NonBlankString(j: Json)
  {
    j.JStr? && !IsBlank(j.s)
  }

  /** The checks an update goes through before anything is saved, in order; `None` when all pass. */
  function Validate(stored: Option<Expense>, req: UpdateRequest): Option<Rejection>
  {
    if stored.None? then Some(NotFound)
    else if req.amount.Some? && req.amount.value <= 0.0 then Some(NonPositiveAmount)
    else if req.description.Some? && !NonBlankString(req.description.value) then Some(EmptyDescription)
    else if req.paidBy.Some? && !NonBlankString(req.paidBy.value) then Some(EmptyPaidBy)
    else if req.participants.Some? && !req.participants.value.JArr? then Some(ParticipantsNotArray)
    else if req.participants.Some? then CheckEntries(req.participants.value.items)
    else None
  }

  /**
   * The expense an update saves, or why nothing is saved.
   *
   * - It is saved exactly when the expense exists, a supplied amount is
   *   positive, a supplied description and payer are non-blank strings, and
   *   supplied participants form an array of well-formed entries whose types
   *   the enum admits.
   * - A supplied amount that is not positive is refused before any other
   *   field is looked at.
   * - The description, payer and amount are taken from the request when
   *   supplied and kept otherwise.
   * - Supplied participants replace the stored list entry for entry, each
   *   stored with its name, its share and its type (default "exact").
   * - A new amount without new participants re-splits the stored participants
   *   equally: same names, same count, each an exact share of the amount over
   *   their number rounded to cents, so within half a cent of it.
   * - Without new participants and without a different amount, the
   *   participant list is untouched.
   */
  function UpdateSpec(stored: Option<Expense>, req: UpdateRequest): (r: Result<Expense, Rejection>)
    ensures r.Success? <==>
      stored.Some?
      && (req.amount.Some? ==> req.amount.value > 0.0)
      && (req.description.Some? ==> NonBlankString(req.description.value))
      && (req.paidBy.Some? ==> NonBlankString(req.paidBy.value))
      && (req.participants.Some? ==>
            req.participants.value.JArr?
            && forall i :: 0 <= i < |req.participants.value.items| ==>
                 WellFormedEntry(req.participants.value.items[i])
                 && TypeAccepted(Field(req.participants.value.items[i], "type")))
    ensures stored.Some? && req.amount.Some? && req.amount.value <= 0.0 ==> r == Failure(NonPositiveAmount)
    ensures r.Success? ==>
      r.value.description == (if req.description.Some? then req.description.value.s else stored.value.description)
      && r.value.paidBy == (if req.paidBy.Some? then req.paidBy.value.s else stored.value.paidBy)
      && r.value.amount == (if req.amount.Some? then req.amount.value else stored.value.amount)
    ensures r.Success? && req.participants.Some? ==>
      var items := req.participants.value.items;
      CastParticipants(items) == Some(r.value.participants)
      && |r.value.participants| == |items|
      && forall i :: 0 <= i < |items| ==>
           r.value.participants[i].name == items[i].fields["name"].s
           && r.value.participants[i].share == items[i].fields["share"].n
    ensures r.Success? && req.participants.None? && req.amount.Some? && req.amount.value != stored.value.amount ==>
      var a, n := req.amount.value, |stored.value.participants|;
      |r.value.participants| == n
      && forall i :: 0 <= i < n ==>
           r.value.participants[i].name == stored.value.participants[i].name
           && r.value.participants[i].share == Round2(a / n as real)
           && a / n as real - 0.005 < r.value.participants[i].share <= a / n as real + 0.005
           && r.value.participants[i].splitType == Exact
    ensures r.Success? && req.participants.None? && (req.amount.None? || req.amount.value == stored.value.amount) ==>
      r.value.participants == stored.value.participants
  {
    var rejection := Validate(stored, req);
    if rejection.Some? then Failure(rejection.value)
    else
      var e := stored.value;
      var description := if req.description.Some? then req.description.value.s else e.description;
      var paidBy := if req.paidBy.Some? then req.paidBy.value.s else e.paidBy;
      if req.participants.Some? then
        var cast := CastParticipants(req.participants.value.items);
        if cast.None? then Failure(SaveRejected)
        else
          var amount := if req.amount.Some? then req.amount.value else e.amount;
          Success(Expense(description, amount, paidBy, cast.value))
      else if req.amount.Some? && req.amount.value != e.amount then
        var a := req.amount.value;
        var n := |e.participants|;
        var participants := if n > 0 then Resplit(e.participants, Round2(a / n as real)) else e.participants;
        Success(Expense(description, a, paidBy, participants))
      else
        Success(Expense(description, e.amount, paidBy, e.participants))
  }

  /** The document `findById` loads; the handler updates its fields in place before saving it. */
  class ExpenseDocument {
    var description: string
    var amount: real
    var paidBy: string
    var participants: seq<Participant>

    /** The record the document holds, as `save` writes it. */
    function Record(): Expense
      reads this
    {
      Expense(description, amount, paidBy, participants)
    }

    constructor Load(e: Expense)
      ensures Record() == e
    {
      description, amount, paidBy, participants := e.description, e.amount, e.paidBy, e.participants;
    }
  }

  /** The `for ... of` loop over the supplied entries: the first entry's failed check, if any. */
  method CheckEach(items: seq<Json>) returns (rejection: Option<Rejection>)
    ensures rejection == CheckEntries(items)
  {
    var i := 0;
    while i < |items|
      invariant 0 <= i <= |items|
      invariant CheckEntries(items[i..]) == CheckEntries(items)
    {
      var p := items[i];
      assert items[i..][0] == p && items[i..][1..] == items[i + 1..];
      if p.JNull? {
        return Some(ServerError);
      }
      var name, share := Field(p, "name"), Field(p, "share");
      if !Truthy(name) || share.None? {
        return Some(MissingNameOrShare);
      }
      if !name.value.JStr? || IsBlank(name.value.s) {
        return Some(EmptyParticipantName);
      }
      if !share.value.JNum? || share.value.n < 0.0 {
        return Some(InvalidShare);
      }
      i := i + 1;
    }
    assert items[i..] == [];
    return None;
  }

  /**
   * `updateExpense`, with the stored expense passed in instead of looked up
   * by id: the saved expense, or the rejection before anything is saved.
   */
  method UpdateExpense(stored: Option<Expense>, req: UpdateRequest) returns (result: Result<Expense, Rejection>)
    ensures result == UpdateSpec(stored, req)
  {
    if stored.None? {
      return Failure(NotFound);
    }
    var expense := new ExpenseDocument.Load(stored.value);

    if req.amount.Some? {
      if req.amount.value <= 0.0 {
        return Failure(NonPositiveAmount);
      }
    }

    if req.description.Some? {
      var description := req.description.value;
      if !description.JStr? || IsBlank(description.s) {
        return Failure(EmptyDescription);
      }
      expense.description := description.s;
    }

    if req.paidBy.Some? {
      var paidBy := req.paidBy.value;
      if !paidBy.JStr? || IsBlank(paidBy.s) {
        return Failure(EmptyPaidBy);
      }
      expense.paidBy := paidBy.s;
    }

    var castFailed := false;
    if req.participants.Some? {
      var participants := req.participants.value;
      if !participants.JArr? {
        return Failure(ParticipantsNotArray);
      }
      var rejection := CheckEach(participants.items);
      if rejection.Some? {
        return Failure(rejection.value);
      }
      var cast := CastParticipants(participants.items);
      if cast.None? {
        castFailed := true;
      } else {
        expense.participants := cast.value;
      }
      expense.amount := if req.amount.Some? then req.amount.value else expense.amount;
    } else if req.amount.Some? && req.amount.value != expense.amount {
      var amount := req.amount.value;
      if |expense.participants| > 0 {
        var numParticipants := |expense.participants|;
        var newSharePerPerson := Round2(amount / numParticipants as real);
        expense.participants := Resplit(expense.participants, newSharePerPerson);
      }
      expense.amount := amount;
    }

    if castFailed {
      return Failure(SaveRejected);
    }
    return Success(expense.Record());
  }

  // ---------------------------------------------------------------------
  // What an update does
  // ---------------------------------------------------------------------

  /** An update that supplies nothing saves the expense unchanged. */
  lemma UpdateEmptyRequest(e: Expense)
    ensures UpdateSpec(Some(e), UpdateRequest(None, None, None, None)) == Success(e)
  {
  }

  /** Applying the same update to its own result changes nothing more. */
  lemma UpdateIdempotent(e: Expense, req: UpdateRequest)
    requires UpdateSpec(Some(e), req).Success?
    ensures UpdateSpec(Some(UpdateSpec(Some(e), req).value), req) == UpdateSpec(Some(e), req)
  {
  }
}
