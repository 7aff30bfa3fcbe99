/**
 * The stored expense record, shaped after the Mongoose schema: a description,
 * a total amount, the payer and a list of participant shares, each with a
 * split type drawn from a three-value enum whose default is "exact".
 */
module ExpenseModel {
  import opened Wrappers

  /** The enum `"percentage" | "exact" | "share"`; `Units` is the "share" kind. */
  datatype SplitType = Percentage | Exact | Units

  /** The split type a freshly stored participant gets when none is given. */
  const DefaultSplitType: SplitType := Exact

  datatype Participant = Participant(name: string, share: real, splitType: SplitType)

  datatype Expense = Expense(
    description: string,
    amount: real,
    paidBy: string,
    participants: seq<Participant>)

  /** The enum value's spelling in stored documents and requests. */
  function SplitTypeName(t: SplitType): string
  {
    match t
    case Percentage => "percentage"
    case Exact => "exact"
    case Units => "share"
  }

  /** Reads an enum spelling back; any other string is outside the enum. */
  function ParseSplitType(s: string): (r: Option<SplitType>)
    ensures r.Some? <==> s in {"percentage", "exact", "share"}
    ensures r.Some? ==> SplitTypeName(r.value) == s
    ensures forall t :: s == SplitTypeName(t) ==> r == Some(t)
  {
    if s == "percentage" then Some(Percentage)
    else if s == "exact" then Some(Exact)
    else if s == "share" then Some(Units)
    else None
  }
}
