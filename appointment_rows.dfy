/** The appointment rows the client pages receive from the API, and what the
    dashboards compute on them: per-status filters and counts, the status badge
    table and the date-time text. */
module AppointmentRows {
  import opened Values
  import opened Text
  import opened Ordering

  /** One appointment as the API serialises it. */
  type Row = map<string, Value>

  /** `a.status === status`. */
  predicate HasStatus(a: Row, status: string)
  {
    Member(a, "status") == Str(status)
  }

  /** `rows.filter((a) => a.status === status)`. */
  function WithStatus(rows: seq<Row>, status: string): (r: seq<Row>)
    ensures |r| <= |rows|
    ensures forall a :: a in r <==> a in rows && HasStatus(a, status)
  {
    if rows == [] then []
    else
      var rest := WithStatus(rows[1..], status);
      assert forall a :: a in rows <==> a == rows[0] || a in rows[1..];
      if HasStatus(rows[0], status) then [rows[0]] + rest else rest
  }

  /** The filter keeps every row with the status as often as it occurs, and
      no other row. */
  lemma {:induction false} WithStatusMultiplicity(rows: seq<Row>, status: string)
    ensures forall a :: multiset(WithStatus(rows, status))[a] == if HasStatus(a, status) then multiset(rows)[a] else 0
  {
    if rows != [] {
      var x, rest := rows[0], rows[1..];
      assert rows == [x] + rest;
      WithStatusMultiplicity(rest, status);
      WithStatusCons(x, rest, status);
      assert multiset(rows) == multiset{x} + multiset(rest);
      var w := WithStatus(rest, status);
      if HasStatus(x, status) {
        assert multiset(WithStatus(rows, status)) == multiset{x} + multiset(w) by {
          assert WithStatus(rows, status) == [x] + w;
        }
      } else {
        assert WithStatus(rows, status) == w;
      }
    }
  }

  /** `rows.filter((a) => a.status === status).length`. */
  function CountStatus(rows: seq<Row>, status: string): (n: nat)
    ensures n <= |rows|
    ensures n == 0 <==> forall a :: a in rows ==> !HasStatus(a, status)
    ensures n == |rows| <==> forall a :: a in rows ==> HasStatus(a, status)
  {
    CountAll(rows, status);
    var w := WithStatus(rows, status);
    assert w != [] ==> w[0] in w;
    |w|
  }

  lemma {:induction false} CountAll(rows: seq<Row>, status: string)
    ensures |WithStatus(rows, status)| == |rows| <==> forall a :: a in rows ==> HasStatus(a, status)
  {
    if rows != [] {
      var tail := rows[1..];
      CountAll(tail, status);
      assert |WithStatus(tail, status)| <= |tail|;
      assert forall a :: a in rows <==> a == rows[0] || a in tail;
    }
  }

  /** Counting is additive: the rows of `a + b` with a status are those of
      `a` and those of `b`, and one row counts one exactly when it has the
      status. Together these fix the count of every list. */
  lemma {:induction false} CountStatusAppend(a: seq<Row>, b: seq<Row>, status: string)
    ensures CountStatus(a + b, status) == CountStatus(a, status) + CountStatus(b, status)
    ensures CountStatus([], status) == 0
    ensures forall x :: CountStatus([x], status) == if HasStatus(x, status) then 1 else 0
  {
    WithStatusAppend(a, b, status);
    forall x ensures CountStatus([x], status) == if HasStatus(x, status) then 1 else 0 {
      assert [x][1..] == [];
    }
  }

  lemma {:induction false} WithStatusAppend(a: seq<Row>, b: seq<Row>, status: string)
    ensures WithStatus(a + b, status) == WithStatus(a, status) + WithStatus(b, status)
  {
    if a != [] {
      var x, rest := a[0], a[1..];
      assert a == [x] + rest && a + b == [x] + (rest + b);
      WithStatusAppend(rest, b, status);
      WithStatusCons(x, rest, status);
      WithStatusCons(x, rest + b, status);
      var w, v := WithStatus(rest, status), WithStatus(b, status);
      if HasStatus(x, status) {
        calc {
          WithStatus(a + b, status);
          [x] + (w + v);
          ([x] + w) + v;
          WithStatus(a, status) + v;
        }
      } else {
        calc {
          WithStatus(a + b, status);
          w + v;
          WithStatus(a, status) + v;
        }
      }
    } else {
      assert a + b == b;
    }
  }

  lemma WithStatusCons(x: Row, rest: seq<Row>, status: string)
    ensures WithStatus([x] + rest, status)
            == if HasStatus(x, status) then [x] + WithStatus(rest, status) else WithStatus(rest, status)
  {
    assert ([x] + rest)[0] == x && ([x] + rest)[1..] == rest;
  }

  /** No row is counted under two statuses, so the counts of the four
      statuses add up to at most the number of rows. */
  lemma {:induction false} FourCountsBounded(rows: seq<Row>)
    ensures CountStatus(rows, "pendiente") + CountStatus(rows, "confirmada")
            + CountStatus(rows, "completada") + CountStatus(rows, "cancelada") <= |rows|
  {
    if rows != [] {
      FourCountsBounded(rows[1..]);
    }
  }

  /** Two different statuses never count the same row: their counts add up to
      at most the number of rows. */
  lemma {:induction false} TwoCountsBounded(rows: seq<Row>, s: string, t: string)
    requires s != t
    ensures CountStatus(rows, s) + CountStatus(rows, t) <= |rows|
  {
    if rows != [] {
      TwoCountsBounded(rows[1..], s, t);
    }
  }

  /** The `StatusBadge` table of both dashboards: one class per status and
      "text-bg-secondary" for any other value. */
  function StatusBadge(status: Value): (cls: string)
    ensures status == Str("pendiente") ==> cls == "text-bg-warning"
    ensures status == Str("confirmada") ==> cls == "text-bg-primary"
    ensures status == Str("completada") ==> cls == "text-bg-success"
    ensures status == Str("cancelada") ==> cls == "text-bg-danger"
    ensures cls == "text-bg-secondary" <==>
              status !in {Str("pendiente"), Str("confirmada"), Str("completada"), Str("cancelada")}
  {
    if status == Str("pendiente") then "text-bg-warning"
    else if status == Str("confirmada") then "text-bg-primary"
    else if status == Str("completada") then "text-bg-success"
    else if status == Str("cancelada") then "text-bg-danger"
    else "text-bg-secondary"
  }

  /** The four statuses get four different badges. */
  lemma StatusBadgeDistinct(s: string, t: string)
    requires s in {"pendiente", "confirmada", "completada", "cancelada"}
    requires t in {"pendiente", "confirmada", "completada", "cancelada"}
    ensures StatusBadge(Str(s)) == StatusBadge(Str(t)) <==> s == t
  {
  }

  /** `s.replace("T", " ").slice(0, 16)`, the part both dashboards' `formatDateTime` share. */
  function DateTimeText(s: string): (r: string)
  {
    Take(ReplaceFirst(s, 'T', ' '), 16)
  }

  /** The date-time text is the first 16 characters of `s`, with the first "T"
      among them shown as a space. */
  lemma DateTimeTextSpec(s: string)
    ensures var r := DateTimeText(s);
            && |r| == (if |s| <= 16 then |s| else 16)
            && forall k :: 0 <= k < |r| ==> r[k] == if k == IndexOf(s, 'T') then ' ' else s[k]
  {
  }

  /** An ISO-8601 local date-time `YYYY-MM-DDTHH:MM:SS` is shown as
      `YYYY-MM-DD HH:MM`. */
  lemma DateTimeTextOfIso(date: string, time: string, rest: string)
    requires |date| == 10 && 'T' !in date && |time| == 5
    ensures DateTimeText(date + "T" + time + rest) == date + " " + time
  {
    var s := date + "T" + time + rest;
    assert s[..10] == date && s[10] == 'T';
    assert IndexOf(s, 'T') == 10 by {
      assert 'T' !in s[..10];
    }
    var r := DateTimeText(s);
    assert |r| == 16;
    forall k | 0 <= k < 16 ensures r[k] == (date + " " + time)[k] {
      if k < 10 {
        assert s[k] == date[k];
      } else if k > 10 {
        assert s[k] == time[k - 11];
      }
    }
  }
}
