/**
 The `loans` table: the record every loan document holds, the four-value status
 enumeration, and the `by_user` / `by_status` index lookups over the table.

 Amounts, rates, terms and timestamps are JavaScript numbers that the backend only
 stores and copies; they are the opaque type parameter `Num` throughout.
 */
module Schema {
  import opened Wrappers

  /** Identifier of a document in the `users` table (owned by the auth library). */
  type UserId = string

  /** Identifier of a document in the `loans` table. The store hands them out in
      increasing order, so a smaller id was inserted earlier. */
  type LoanId = nat

  /** The loan status; the type admits exactly these four values. */
  datatype Status = Pending | Active | Paid | Defaulted

  /** The string literal the status validator accepts for each status. */
  function StatusLiteral(s: Status): string {
    match s
    case Pending => "pending"
    case Active => "active"
    case Paid => "paid"
    case Defaulted => "defaulted"
  }

  /** The union-of-literals validator on `status`: accepts exactly the four
      literals and rejects every other string. */
  function ParseStatus(lit: string): (r: Option<Status>)
    ensures r.Some? <==> lit == "pending" || lit == "active" || lit == "paid" || lit == "defaulted"
    ensures r.Some? ==> StatusLiteral(r.value) == lit
  {
    if lit == "pending" then Some(Pending)
    else if lit == "active" then Some(Active)
    else if lit == "paid" then Some(Paid)
    else if lit == "defaulted" then Some(Defaulted)
    else None
  }

  /** Every status survives the validator: its literal parses back to it. */
  lemma StatusRoundTrip(s: Status)
    ensures ParseStatus(StatusLiteral(s)) == Some(s)
  {
  }

  /** A loan document: exactly these eight fields. */
  datatype Loan<Num> = Loan(
    userId: UserId,        // the one owning user
    borrowerName: string,
    amount: Num,
    interestRate: Num,
    term: Num,             // in months
    status: Status,
    startDate: Num,        // creation timestamp
    description: string)

  /** The table: documents keyed by their id. */
  type Table<Num> = map<LoanId, Loan<Num>>

  /** A document as a query returns it: its id together with its fields. */
  datatype Doc<Num> = Doc(id: LoanId, loan: Loan<Num>)

  /** The two declared indexes, each with the key it is queried with. */
  datatype Index = ByUser(user: UserId) | ByStatus(status: Status)

  /** Whether a loan is under the given key of the index. */
  predicate Matches<Num>(l: Loan<Num>, ix: Index) {
    match ix
    case ByUser(u) => l.userId == u
    case ByStatus(s) => l.status == s
  }

  /** The record an index lookup selects at `id`, if any. */
  function Selected<Num>(t: Table<Num>, ix: Index, id: LoanId): Option<Loan<Num>> {
    if id in t && Matches(t[id], ix) then Some(t[id]) else None
  }

  /** Whether the document with id `id` occurs in a query result. */
  ghost predicate Listed<Num>(r: seq<Doc<Num>>, id: LoanId) {
    exists i :: 0 <= i < |r| && r[i].id == id
  }

  /**
   An index range scan followed by `collect()`: every document with id below `hi`
   that the index key selects, oldest first. The result is exactly the selected
   documents, each as stored, in strictly increasing id order.
   */
  function Scan<Num>(t: Table<Num>, ix: Index, hi: nat): (r: seq<Doc<Num>>)
    ensures forall i :: 0 <= i < |r| ==>
      r[i].id < hi && Selected(t, ix, r[i].id) == Some(r[i].loan)
    ensures forall i, j :: 0 <= i < j < |r| ==> r[i].id < r[j].id
    ensures forall id: LoanId :: id < hi && Selected(t, ix, id).Some? ==> Listed(r, id)
  {
    if hi == 0 then []
    else
      var prev := Scan(t, ix, hi - 1);
      if Selected(t, ix, hi - 1).Some? then
        var r := prev + [Doc(hi - 1, t[hi - 1])];
        assert forall id: LoanId :: Listed(prev, id) ==> Listed(r, id) by {
          forall id | Listed(prev, id) ensures Listed(r, id) {
            var i :| 0 <= i < |prev| && prev[i].id == id;
            assert r[i].id == id;
          }
        }
        assert r[|prev|].id == hi - 1;
        r
      else
        prev
  }

  /**
   A scan depends only on the records the index key selects: two tables that
   select the same records below `hi` give the same result.
   */
  lemma {:induction false} ScanFrame<Num>(t: Table<Num>, t': Table<Num>, ix: Index, hi: nat)
    requires forall id: LoanId :: id < hi ==> Selected(t, ix, id) == Selected(t', ix, id)
    ensures Scan(t, ix, hi) == Scan(t', ix, hi)
  {
    if hi > 0 {
      ScanFrame(t, t', ix, hi - 1);
    }
  }

  /**
   Inserting a record at an id above every existing one appends it to the scans
   that select it and leaves every other scan as it was.
   */
  lemma {:induction false} ScanInsert<Num>(t: Table<Num>, n: LoanId, l: Loan<Num>, ix: Index)
    requires forall id: LoanId :: id in t ==> id < n
    ensures Scan(t[n := l], ix, n + 1) ==
      Scan(t, ix, n) + (if Matches(l, ix) then [Doc(n, l)] else [])
  {
    ScanFrame(t, t[n := l], ix, n);
  }

  /** Every record below `hi` is found by exactly one of the four status lookups. */
  lemma StatusScansPartition<Num>(t: Table<Num>, id: LoanId, hi: nat, s: Status)
    requires id in t && id < hi
    ensures Listed(Scan(t, ByStatus(s), hi), id) <==> t[id].status == s
  {
  }
}
