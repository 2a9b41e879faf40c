/** The payment store: an abstract ledger standing for the `society_payments`
    table that controllers/payment_controller.py queries. Rows are kept oldest
    first; a query "ORDER BY payment_date DESC" returns them newest first. */
module Ledger {
  import opened Options
  import opened Strings

  /** A timestamp as the store and the clock give it. The years are those a
      MySQL DATETIME column holds, so `%Y` always gives four digits. */
  datatype DateTime = DateTime(year: int, month: int, day: int, hour: int, minute: int, second: int) {
    predicate Valid() {
      && 1000 <= year <= 9999 && 1 <= month <= 12 && 1 <= day <= 31
      && 0 <= hour < 24 && 0 <= minute < 60 && 0 <= second < 60
    }
  }

  /** One row of the table. The amount column is DECIMAL(10,2), kept here as
      whole cents. */
  datatype Payment = Payment(id: nat, memberName: string, cents: nat, recordedBy: int, paymentDate: DateTime)

  /** The rows in "ORDER BY payment_date DESC" order, the insertion order
      standing for the clock: the last inserted row comes first. */
  function NewestFirst(records: seq<Payment>): (r: seq<Payment>)
    ensures |r| == |records|
    ensures forall i :: 0 <= i < |r| ==> r[i] == records[|records| - 1 - i]
  {
    if records == [] then [] else [records[|records| - 1]] + NewestFirst(records[..|records| - 1])
  }

  /** The rows of `payments` a WHERE clause keeps, in their order. */
  function Where(payments: seq<Payment>, keep: Payment -> bool): (r: seq<Payment>)
    ensures |r| <= |payments|
    ensures forall p :: p in r <==> p in payments && keep(p)
  {
    if payments == [] then []
    else (if keep(payments[0]) then [payments[0]] else []) + Where(payments[1..], keep)
  }

  /** A WHERE clause keeps the order of the rows: filtering two runs of rows
      and putting them together is filtering the whole. */
  lemma {:induction false} WhereAppend(a: seq<Payment>, b: seq<Payment>, keep: Payment -> bool)
    ensures Where(a + b, keep) == Where(a, keep) + Where(b, keep)
    decreases |a|
  {
    if a == [] {
      assert a + b == b;
    } else {
      assert (a + b)[1..] == a[1..] + b;
      WhereAppend(a[1..], b, keep);
    }
  }

  /** The rows of `payments`, in their order, with
      `LOWER(member_name) = LOWER(name)`. */
  function MatchingMember(payments: seq<Payment>, name: string): (r: seq<Payment>)
    ensures |r| <= |payments|
    ensures forall p :: p in r <==> p in payments && Lower(p.memberName) == Lower(name)
  {
    Where(payments, (p: Payment) => Lower(p.memberName) == Lower(name))
  }

  /** `DATE(payment_date) = CURDATE()`: the same calendar day. */
  predicate SameDay(a: DateTime, b: DateTime) {
    a.year == b.year && a.month == b.month && a.day == b.day
  }

  /** `MONTH(payment_date) = MONTH(CURRENT_DATE()) AND YEAR(payment_date) =
      YEAR(CURRENT_DATE())`: the same month of the same year. */
  predicate SameMonth(a: DateTime, b: DateTime) {
    a.year == b.year && a.month == b.month
  }

  /** The rows paid on the calendar day of `today`. */
  function PaidOn(payments: seq<Payment>, today: DateTime): (r: seq<Payment>)
    ensures |r| <= |payments|
    ensures forall p :: p in r <==> p in payments && SameDay(p.paymentDate, today)
  {
    Where(payments, (p: Payment) => SameDay(p.paymentDate, today))
  }

  /** The rows paid in the calendar month of `today`. */
  function PaidInMonth(payments: seq<Payment>, today: DateTime): (r: seq<Payment>)
    ensures |r| <= |payments|
    ensures forall p :: p in r <==> p in payments && SameMonth(p.paymentDate, today)
  {
    Where(payments, (p: Payment) => SameMonth(p.paymentDate, today))
  }

  /** A payment of today is a payment of this month, so today's total never
      exceeds the month's. */
  lemma {:induction false} DayWithinMonth(payments: seq<Payment>, today: DateTime)
    ensures |PaidOn(payments, today)| <= |PaidInMonth(payments, today)|
    ensures SumCents(PaidOn(payments, today)) <= SumCents(PaidInMonth(payments, today))
    decreases |payments|
  {
    if payments != [] {
      var last := payments[|payments| - 1];
      var front := payments[..|payments| - 1];
      assert payments == front + [last];
      var day := (p: Payment) => SameDay(p.paymentDate, today);
      var month := (p: Payment) => SameMonth(p.paymentDate, today);
      WhereAppend(front, [last], day);
      WhereAppend(front, [last], month);
      assert [last][1..] == [];
      DayWithinMonth(front, today);
      if day(last) {
        assert Where([last], day) == [last];
        assert Where([last], month) == [last];
        var d := PaidOn(front, today) + [last];
        assert d[..|d| - 1] == PaidOn(front, today);
        var m := PaidInMonth(front, today) + [last];
        assert m[..|m| - 1] == PaidInMonth(front, today);
      } else if month(last) {
        assert Where([last], day) == [];
        assert Where([last], month) == [last];
        assert PaidOn(front, today) + [] == PaidOn(front, today);
        var m := PaidInMonth(front, today) + [last];
        assert m[..|m| - 1] == PaidInMonth(front, today);
      } else {
        assert Where([last], day) == [];
        assert Where([last], month) == [];
        assert PaidOn(front, today) + [] == PaidOn(front, today);
        assert PaidInMonth(front, today) + [] == PaidInMonth(front, today);
      }
    }
  }

  /** SUM(amount), in cents. */
  function SumCents(payments: seq<Payment>): nat {
    if payments == [] then 0 else SumCents(payments[..|payments| - 1]) + payments[|payments| - 1].cents
  }

  /** Adding the next payment of a running total. */
  lemma SumCentsStep(payments: seq<Payment>, i: nat)
    requires i < |payments|
    ensures SumCents(payments[..i + 1]) == SumCents(payments[..i]) + payments[i].cents
  {
    assert payments[..i + 1][..i] == payments[..i];
  }

  class Store {
    /** The rows, oldest first. */
    var records: seq<Payment>
    /** The AUTO_INCREMENT counter: the id the next row receives. */
    var nextId: nat

    ghost predicate Valid()
      reads this
    {
      && nextId >= 1
      && (forall i :: 0 <= i < |records| ==> records[i].id < nextId && records[i].paymentDate.Valid())
      && (forall i, j :: 0 <= i < j < |records| ==> records[i].id < records[j].id)
    }

    constructor ()
      ensures Valid() && records == [] && nextId == 1
    {
      records := [];
      nextId := 1;
    }

    /** insert_payment: one INSERT whose row is read back. The store assigns
        the id and the payment date (`now`); when the database raises, nothing
        is committed. The new row heads the newest-first listing. */
    method Insert(memberName: string, cents: nat, recordedBy: int, now: DateTime, fails: bool)
      returns (r: Option<Payment>)
      requires Valid() && now.Valid()
      modifies this
      ensures Valid()
      ensures fails ==> r == None && records == old(records) && nextId == old(nextId)
      ensures !fails ==>
        && r == Some(Payment(old(nextId), memberName, cents, recordedBy, now))
        && records == old(records) + [r.value]
        && nextId == old(nextId) + 1
        && LastPayments(20)[0] == r.value
    {
      if fails {
        return None;
      }
      var p := Payment(nextId, memberName, cents, recordedBy, now);
      records := records + [p];
      nextId := nextId + 1;
      r := Some(p);
    }

    /** reset_all_payments: COUNT(*), then TRUNCATE TABLE, which also restarts
        the id counter. Reports how many rows there were just before. */
    method ResetAll(fails: bool) returns (deleted: Option<nat>)
      requires Valid()
      modifies this
      ensures Valid()
      ensures fails ==> deleted == None && records == old(records) && nextId == old(nextId)
      ensures !fails ==> deleted == Some(|old(records)|) && records == [] && nextId == 1
    {
      if fails {
        return None;
      }
      deleted := Some(|records|);
      records := [];
      nextId := 1;
    }

    /** get_payment_stats()['total_payments']. */
    function PaymentCount(): nat
      reads this
    {
      |records|
    }

    /** get_last_payments(limit): at most `limit` rows, newest first. */
    function LastPayments(limit: nat): (r: seq<Payment>)
      reads this
      ensures |r| == if |records| < limit then |records| else limit
      ensures forall i :: 0 <= i < |r| ==> r[i] == records[|records| - 1 - i]
    {
      var all := NewestFirst(records);
      if |all| < limit then all else all[..limit]
    }

    /** get_all_payments(): every row, newest first. */
    function AllPayments(): seq<Payment>
      reads this
    {
      NewestFirst(records)
    }

    /** get_member_payments(name)['payments']. */
    function MemberPayments(name: string): seq<Payment>
      reads this
    {
      MatchingMember(NewestFirst(records), name)
    }
  }
}
