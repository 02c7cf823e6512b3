/**
 The six handlers on the `loans` table. Each resolves the caller, checks
 ownership when it targets an existing record, and then applies exactly one
 table operation (filter, insert, patch or delete).

 The caller identity the auth library resolves is a parameter (`None` when the
 session has none), and so is the clock reading that `create` stores.
 */
module Loans {
  import opened Wrappers
  import opened Schema

  /** The errors a handler throws. `ArgumentValidation` is raised by the argument
      validator before the handler body runs. */
  datatype Error = NotAuthenticated | NotFoundOrUnauthorized | ArgumentValidation

  datatype Result<T> = Ok(value: T) | Err(error: Error)

  /** The five fields the client supplies to `create` and `update`. */
  datatype LoanFields<Num> = LoanFields(
    borrowerName: string,
    amount: Num,
    interestRate: Num,
    term: Num,
    description: string)

  /** The client-editable part of a stored loan. */
  function FieldsOf<Num>(l: Loan<Num>): LoanFields<Num> {
    LoanFields(l.borrowerName, l.amount, l.interestRate, l.term, l.description)
  }

  /** The document `create` inserts: owned by the caller, pending, stamped with
      the creation time, and with the client's fields verbatim. */
  function NewLoan<Num>(owner: UserId, f: LoanFields<Num>, now: Num): (l: Loan<Num>)
    ensures l.userId == owner && l.status == Pending && l.startDate == now
    ensures FieldsOf(l) == f
  {
    Loan(owner, f.borrowerName, f.amount, f.interestRate, f.term, Pending, now, f.description)
  }

  /** The patch `update` applies: the five editable fields are replaced; owner,
      status and start date are kept. */
  function WithFields<Num>(l: Loan<Num>, f: LoanFields<Num>): (r: Loan<Num>)
    ensures FieldsOf(r) == f
    ensures r.userId == l.userId && r.status == l.status && r.startDate == l.startDate
  {
    l.(borrowerName := f.borrowerName, amount := f.amount, interestRate := f.interestRate,
       term := f.term, description := f.description)
  }

  /** The patch `updateStatus` applies: only the status is replaced, and any
      status may replace any other. */
  function WithStatus<Num>(l: Loan<Num>, s: Status): (r: Loan<Num>)
    ensures r.status == s
    ensures FieldsOf(r) == FieldsOf(l) && r.userId == l.userId && r.startDate == l.startDate
  {
    l.(status := s)
  }

  /** The two patches touch disjoint fields, so their order does not matter. */
  lemma PatchesCommute<Num>(l: Loan<Num>, f: LoanFields<Num>, s: Status)
    ensures WithStatus(WithFields(l, f), s) == WithFields(WithStatus(l, s), f)
  {
  }

  /** Whether the caller is signed in and owns the record stored at `id`. */
  predicate Owns<Num>(t: Table<Num>, caller: Option<UserId>, id: LoanId) {
    caller.Some? && id in t && t[id].userId == caller.value
  }

  /** The error a record-targeting handler throws when the caller may not touch
      the record: absent and foreign records are reported alike. */
  function Denial(caller: Option<UserId>): Error {
    if caller.None? then NotAuthenticated else NotFoundOrUnauthorized
  }

  /**
   The check that opens `get`, `update`, `updateStatus` and `remove`: resolve the
   caller, fetch the record, and refuse unless the caller owns it.
   */
  function Authorize<Num>(t: Table<Num>, caller: Option<UserId>, id: LoanId): (r: Result<Loan<Num>>)
    ensures caller.None? ==> r == Err(NotAuthenticated)
    ensures r.Ok? <==> Owns(t, caller, id)
    ensures r.Ok? ==> id in t && r.value == t[id]
    ensures r.Err? ==> r.error == Denial(caller)
  {
    match caller
    case None => Err(NotAuthenticated)
    case Some(u) =>
      if id in t && t[id].userId == u then Ok(t[id]) else Err(NotFoundOrUnauthorized)
  }

  /** Once a record is deleted, the check refuses it to everyone. */
  lemma DeletedIsNotFound<Num>(t: Table<Num>, caller: Option<UserId>, id: LoanId)
    ensures Authorize(t - {id}, caller, id) == Err(Denial(caller))
  {
  }

  /** The `loans` table as the handlers see it, updated in place. */
  class LoanStore<Num> {
    var loans: Table<Num>
    /** The next id `create` hands out; ids are never reused. */
    var nextId: LoanId

    ghost predicate Valid()
      reads this
    {
      forall id: LoanId :: id in loans ==> id < nextId
    }

    constructor ()
      ensures Valid() && loans == map[] && nextId == 0
    {
      loans := map[];
      nextId := 0;
    }

    /** `list`: the caller's loans, through the `by_user` index. */
    method List(caller: Option<UserId>) returns (r: Result<seq<Doc<Num>>>)
      requires Valid()
      ensures caller.None? ==> r == Err(NotAuthenticated)
      ensures caller.Some? ==> r == Ok(Scan(loans, ByUser(caller.value), nextId))
      ensures r.Ok? ==> forall i :: 0 <= i < |r.value| ==>
        var d := r.value[i]; d.id in loans && loans[d.id] == d.loan && d.loan.userId == caller.value
      ensures r.Ok? ==> forall id: LoanId :: id in loans && loans[id].userId == caller.value ==>
        Listed(r.value, id)
    {
      if caller.None? {
        return Err(NotAuthenticated);
      }
      r := Ok(Scan(loans, ByUser(caller.value), nextId));
      forall id: LoanId | id in loans && loans[id].userId == caller.value
        ensures Listed(r.value, id)
      {
        assert Selected(loans, ByUser(caller.value), id).Some?;
      }
    }

    /** `create`: insert a new pending loan owned by the caller under a fresh id. */
    method Create(caller: Option<UserId>, f: LoanFields<Num>, now: Num) returns (r: Result<LoanId>)
      requires Valid()
      modifies this
      ensures Valid()
      ensures caller.None? ==>
        r == Err(NotAuthenticated) && loans == old(loans) && nextId == old(nextId)
      ensures caller.Some? ==>
        && r.Ok? && r.value == old(nextId) && r.value !in old(loans)
        && loans == old(loans)[r.value := NewLoan(caller.value, f, now)]
        && nextId == old(nextId) + 1
      // the caller's list gains the new loan at its end; no other list changes
      ensures caller.Some? ==>
        Scan(loans, ByUser(caller.value), nextId) ==
        old(Scan(loans, ByUser(caller.value), nextId)) + [Doc(r.value, NewLoan(caller.value, f, now))]
      ensures forall v :: Some(v) != caller ==>
        Scan(loans, ByUser(v), nextId) == old(Scan(loans, ByUser(v), nextId))
    {
      if caller.None? {
        return Err(NotAuthenticated);
      }
      ghost var t0, n0 := loans, nextId;
      var id := nextId;
      var loan := NewLoan(caller.value, f, now);
      loans := loans[id := loan];
      nextId := nextId + 1;
      r := Ok(id);
      ScanInsert(t0, n0, loan, ByUser(caller.value));
      forall v | Some(v) != caller
        ensures Scan(loans, ByUser(v), nextId) == Scan(t0, ByUser(v), n0)
      {
        ScanInsert(t0, n0, loan, ByUser(v));
      }
    }

    /** `update`: on an owned record, replace the five editable fields. */
    method Update(caller: Option<UserId>, id: LoanId, f: LoanFields<Num>) returns (r: Result<()>)
      requires Valid()
      modifies this
      ensures Valid() && nextId == old(nextId)
      ensures r.Ok? <==> Owns(old(loans), caller, id)
      ensures r.Err? ==> r.error == Denial(caller) && loans == old(loans)
      ensures r.Ok? ==> loans == old(loans)[id := WithFields(old(loans)[id], f)]
      ensures forall v :: Some(v) != caller ==>
        Scan(loans, ByUser(v), nextId) == old(Scan(loans, ByUser(v), nextId))
    {
      var found := Authorize(loans, caller, id);
      if found.Err? {
        return Err(found.error);
      }
      ghost var t0 := loans;
      loans := loans[id := WithFields(found.value, f)];
      r := Ok(());
      forall v | Some(v) != caller
        ensures Scan(loans, ByUser(v), nextId) == Scan(t0, ByUser(v), nextId)
      {
        ScanFrame(loans, t0, ByUser(v), nextId);
      }
    }

    /** `updateStatus`: validate the literal, then on an owned record set only the status. */
    method UpdateStatus(caller: Option<UserId>, id: LoanId, status: string) returns (r: Result<()>)
      requires Valid()
      modifies this
      ensures Valid() && nextId == old(nextId)
      ensures ParseStatus(status).None? ==> r == Err(ArgumentValidation) && loans == old(loans)
      ensures ParseStatus(status).Some? ==>
        && (r.Ok? <==> Owns(old(loans), caller, id))
        && (r.Err? ==> r.error == Denial(caller) && loans == old(loans))
      ensures r.Ok? ==>
        loans == old(loans)[id := WithStatus(old(loans)[id], ParseStatus(status).value)]
      ensures forall v :: Some(v) != caller ==>
        Scan(loans, ByUser(v), nextId) == old(Scan(loans, ByUser(v), nextId))
    {
      var s := ParseStatus(status);
      if s.None? {
        return Err(ArgumentValidation);
      }
      var found := Authorize(loans, caller, id);
      if found.Err? {
        return Err(found.error);
      }
      ghost var t0 := loans;
      loans := loans[id := WithStatus(found.value, s.value)];
      r := Ok(());
      forall v | Some(v) != caller
        ensures Scan(loans, ByUser(v), nextId) == Scan(t0, ByUser(v), nextId)
      {
        ScanFrame(loans, t0, ByUser(v), nextId);
      }
    }

    /** `remove`: delete an owned record. */
    method Remove(caller: Option<UserId>, id: LoanId) returns (r: Result<()>)
      requires Valid()
      modifies this
      ensures Valid() && nextId == old(nextId)
      ensures r.Ok? <==> Owns(old(loans), caller, id)
      ensures r.Err? ==> r.error == Denial(caller) && loans == old(loans)
      ensures r.Ok? ==> loans == old(loans) - {id}
      ensures forall v :: Some(v) != caller ==>
        Scan(loans, ByUser(v), nextId) == old(Scan(loans, ByUser(v), nextId))
    {
      var found := Authorize(loans, caller, id);
      if found.Err? {
        return Err(found.error);
      }
      ghost var t0 := loans;
      loans := loans - {id};
      r := Ok(());
      forall v | Some(v) != caller
        ensures Scan(loans, ByUser(v), nextId) == Scan(t0, ByUser(v), nextId)
      {
        ScanFrame(loans, t0, ByUser(v), nextId);
      }
    }

    /** `get`: the stored record, if the caller owns it. */
    method Get(caller: Option<UserId>, id: LoanId) returns (r: Result<Loan<Num>>)
      ensures caller.None? ==> r == Err(NotAuthenticated)
      ensures r.Ok? <==> Owns(loans, caller, id)
      ensures r.Ok? ==> r.value == loans[id]
      ensures r.Err? ==> r.error == Denial(caller)
    {
      r := Authorize(loans, caller, id);
    }
  }

  /**
   A session of one owner whose list is still empty: create a
   loan, list it, activate it, read it back, let another user try to read it,
   remove it, and read it again.
   */
  method OwnerSession<Num>(store: LoanStore<Num>, owner: UserId, other: UserId,
                           f: LoanFields<Num>, now: Num)
    returns (listed: Result<seq<Doc<Num>>>, activated: Result<Loan<Num>>,
             seenByOther: Result<Loan<Num>>, afterRemove: Result<Loan<Num>>)
    requires store.Valid() && owner != other
    requires Scan(store.loans, ByUser(owner), store.nextId) == []
    modifies store
    ensures listed.Ok? && |listed.value| == 1 && listed.value[0].loan.status == Pending
    ensures activated.Ok? && activated.value.status == Active
    ensures activated.value.userId == owner && FieldsOf(activated.value) == f
    ensures seenByOther == Err(NotFoundOrUnauthorized)
    ensures afterRemove == Err(NotFoundOrUnauthorized)
  {
    var created := store.Create(Some(owner), f, now);
    var id := created.value;
    listed := store.List(Some(owner));
    assert listed.value == [Doc(id, NewLoan(owner, f, now))];
    assert Owns(store.loans, Some(owner), id);
    StatusRoundTrip(Active);
    var u := store.UpdateStatus(Some(owner), id, StatusLiteral(Active));
    assert u.Ok?;
    assert store.loans[id] == WithStatus(NewLoan(owner, f, now), Active);
    activated := store.Get(Some(owner), id);
    seenByOther := store.Get(Some(other), id);
    var v := store.Remove(Some(owner), id);
    assert v.Ok? && id !in store.loans;
    afterRemove := store.Get(Some(owner), id);
  }
}
