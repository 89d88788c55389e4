/**
 * How the booking pages lay a show's seats out for display: grouped by row
 * label into ground and balcony rows, each row sorted by seat number, and
 * the centre-out seat recommender of the user booking page.
 */
module SeatRows {
  import opened Text
  import opened Seqs
  import opened Models
  import SeatLayout

  /** The sort key `int("".join(filter(str.isdigit, s.seat_number)))`. */
  function Key(s: Seat): nat {
    Value(Digits(s.number))
  }

  /** `int` of the digit part succeeds only when there is a digit. */
  predicate HasKey(s: Seat) {
    Digits(s.number) != ""
  }

  /** `"".join(filter(str.isalpha, seat.seat_number))` */
  function RowLabel(s: Seat): string {
    SeatLayout.RowOf(s.number)
  }

  predicate InGround(s: Seat) {
    !SeatLayout.IsBalconyRow(RowLabel(s))
  }

  /** The seats of `row`, in the order they were listed. */
  function RowMembers(seats: seq<Seat>, row: string): (r: seq<Seat>)
    ensures forall i :: 0 <= i < |r| ==> RowLabel(r[i]) == row
    decreases |seats|
  {
    if seats == [] then []
    else
      var last := seats[|seats| - 1];
      RowMembers(seats[..|seats| - 1], row) + (if RowLabel(last) == row then [last] else [])
  }

  function GroundLabels(seats: seq<Seat>): set<string> {
    set i | 0 <= i < |seats| && InGround(seats[i]) :: RowLabel(seats[i])
  }

  function BalconyLabels(seats: seq<Seat>): set<string> {
    set i | 0 <= i < |seats| && !InGround(seats[i]) :: RowLabel(seats[i])
  }

  // ---------------------------------------------------------------------
  // `sorted(seats, key=...)`

  /** Python's `sorted` with this key: stable, ascending by seat number. */
  function SortByKey(s: seq<Seat>): (r: seq<Seat>)
    ensures |r| == |s|
  {
    SortBy(s, Key)
  }

  /** A sorted row holds the same seats, ordered by seat number. */
  lemma SortByKeySorts(s: seq<Seat>)
    ensures SortedBy(SortByKey(s), Key)
    ensures multiset(SortByKey(s)) == multiset(s)
  {
    SortBySorts(s, Key);
  }

  // ---------------------------------------------------------------------
  // Grouping

  lemma LabelsStep(seats: seq<Seat>, i: nat)
    requires i < |seats|
    ensures seats[..i + 1] == seats[..i] + [seats[i]]
    ensures GroundLabels(seats[..i + 1])
      == GroundLabels(seats[..i]) + (if InGround(seats[i]) then {RowLabel(seats[i])} else {})
    ensures BalconyLabels(seats[..i + 1])
      == BalconyLabels(seats[..i]) + (if InGround(seats[i]) then {} else {RowLabel(seats[i])})
  {
    var a, b := seats[..i], seats[..i + 1];
    assert forall k :: 0 <= k < i ==> b[k] == a[k];
    assert b[i] == seats[i];
  }

  lemma {:induction false} RowMembersNone(seats: seq<Seat>, row: string)
    requires forall i :: 0 <= i < |seats| ==> RowLabel(seats[i]) != row
    ensures RowMembers(seats, row) == []
    decreases |seats|
  {
    if seats != [] {
      RowMembersNone(seats[..|seats| - 1], row);
    }
  }

  /** A label not among the ground labels has no ground seats, and likewise
      for the balcony. */
  lemma AbsentLabel(seats: seq<Seat>, row: string, ground: bool)
    requires ground ==> !SeatLayout.IsBalconyRow(row) && row !in GroundLabels(seats)
    requires !ground ==> SeatLayout.IsBalconyRow(row) && row !in BalconyLabels(seats)
    ensures RowMembers(seats, row) == []
  {
    RowMembersNone(seats, row);
  }

  function Get(m: map<string, seq<Seat>>, row: string): seq<Seat> {
    if row in m then m[row] else []
  }

  /** `m` holds, for every label of one floor among `seats`, that row's seats
      in listed order, and no other label. */
  predicate Collected(m: map<string, seq<Seat>>, seats: seq<Seat>, ground: bool) {
    && m.Keys == (if ground then GroundLabels(seats) else BalconyLabels(seats))
    && forall row :: row in m ==> m[row] == RowMembers(seats, row)
  }

  lemma RowMembersStep(seats: seq<Seat>, i: nat, row: string)
    requires i < |seats|
    ensures RowMembers(seats[..i + 1], row)
      == RowMembers(seats[..i], row) + (if RowLabel(seats[i]) == row then [seats[i]] else [])
  {
    var ys := seats[..i + 1];
    assert ys[..|ys| - 1] == seats[..i];
    assert ys[|ys| - 1] == seats[i];
  }

  /** `rows[row_label].append(seat)` keeps the seat's own floor collected. */
  lemma CollectStep(m: map<string, seq<Seat>>, seats: seq<Seat>, i: nat, ground: bool)
    requires i < |seats| && Collected(m, seats[..i], ground) && InGround(seats[i]) == ground
    ensures Collected(m[RowLabel(seats[i]) := Get(m, RowLabel(seats[i])) + [seats[i]]], seats[..i + 1], ground)
  {
    var row := RowLabel(seats[i]);
    var m' := m[row := Get(m, row) + [seats[i]]];
    assert m'.Keys == (if ground then GroundLabels(seats[..i + 1]) else BalconyLabels(seats[..i + 1])) by {
      LabelsStep(seats, i);
    }
    assert Get(m, row) == RowMembers(seats[..i], row) by {
      if row !in m {
        AbsentLabel(seats[..i], row, ground);
      }
    }
    forall r | r in m' ensures m'[r] == RowMembers(seats[..i + 1], r) {
      RowMembersStep(seats, i, r);
    }
  }

  /** ... and leaves the other floor's map collected unchanged. */
  lemma CollectSkip(m: map<string, seq<Seat>>, seats: seq<Seat>, i: nat, ground: bool)
    requires i < |seats| && Collected(m, seats[..i], ground) && InGround(seats[i]) != ground
    ensures Collected(m, seats[..i + 1], ground)
  {
    assert m.Keys == (if ground then GroundLabels(seats[..i + 1]) else BalconyLabels(seats[..i + 1])) by {
      LabelsStep(seats, i);
    }
    forall r | r in m ensures m[r] == RowMembers(seats[..i + 1], r) {
      RowMembersStep(seats, i, r);
    }
  }

  /** The `for row, seats in row_dict.items()` loop that sorts every row. */
  method SortRows(rows: map<string, seq<Seat>>) returns (r: map<string, seq<Seat>>)
    ensures r.Keys == rows.Keys
    ensures forall row :: row in r ==> r[row] == SortByKey(rows[row])
  {
    r := map[];
    var todo := rows.Keys;
    while todo != {}
      invariant todo <= rows.Keys
      invariant r.Keys == rows.Keys - todo
      invariant forall row :: row in r ==> r[row] == SortByKey(rows[row])
      decreases |todo|
    {
      var row :| row in todo;
      r := r[row := SortByKey(rows[row])];
      todo := todo - {row};
    }
  }

  /** Both booking pages group the seats they list this way: a label of two
      or more letters starting with "B" is a balcony row, every other label
      (the empty one included) a ground row; each row lists its seats sorted
      by seat number. The sort key is taken from every seat, and `int` fails
      on a seat number without digits, so every seat must have one. */
  method GroupRows(seats: seq<Seat>) returns (ground: map<string, seq<Seat>>, balcony: map<string, seq<Seat>>)
    requires forall i :: 0 <= i < |seats| ==> HasKey(seats[i])
    ensures ground.Keys == GroundLabels(seats) && balcony.Keys == BalconyLabels(seats)
    ensures forall row :: row in ground ==> ground[row] == SortByKey(RowMembers(seats, row))
    ensures forall row :: row in balcony ==> balcony[row] == SortByKey(RowMembers(seats, row))
    ensures forall row :: row in ground ==>
      SortedBy(ground[row], Key) && multiset(ground[row]) == multiset(RowMembers(seats, row))
    ensures forall row :: row in balcony ==>
      SortedBy(balcony[row], Key) && multiset(balcony[row]) == multiset(RowMembers(seats, row))
  {
    var g: map<string, seq<Seat>> := map[];
    var b: map<string, seq<Seat>> := map[];
    for i := 0 to |seats|
      invariant Collected(g, seats[..i], true) && Collected(b, seats[..i], false)
    {
      var s := seats[i];
      var row := RowLabel(s);
      if SeatLayout.IsBalconyRow(row) {
        CollectStep(b, seats, i, false);
        CollectSkip(g, seats, i, true);
        b := b[row := Get(b, row) + [s]];
      } else {
        CollectStep(g, seats, i, true);
        CollectSkip(b, seats, i, false);
        g := g[row := Get(g, row) + [s]];
      }
    }
    assert seats[..|seats|] == seats;
    ground := SortRows(g);
    balcony := SortRows(b);
    forall row | row in ground || row in balcony
      ensures SortedBy(SortByKey(RowMembers(seats, row)), Key)
      ensures multiset(SortByKey(RowMembers(seats, row))) == multiset(RowMembers(seats, row))
    {
      SortByKeySorts(RowMembers(seats, row));
    }
  }

  /** Every listed seat appears in exactly one group, under its own label. */
  lemma {:induction false} EverySeatGrouped(seats: seq<Seat>, i: nat)
    requires i < |seats|
    ensures seats[i] in multiset(SortByKey(RowMembers(seats, RowLabel(seats[i]))))
    ensures RowLabel(seats[i]) in GroundLabels(seats) <==> InGround(seats[i])
    ensures RowLabel(seats[i]) in BalconyLabels(seats) <==> !InGround(seats[i])
    decreases |seats|
  {
    var row := RowLabel(seats[i]);
    SortByKeySorts(RowMembers(seats, row));
    MemberOfRow(seats, i);
  }

  lemma {:induction false} MemberOfRow(seats: seq<Seat>, i: nat)
    requires i < |seats|
    ensures seats[i] in RowMembers(seats, RowLabel(seats[i]))
    decreases |seats|
  {
    if i < |seats| - 1 {
      MemberOfRow(seats[..|seats| - 1], i);
    }
  }

  // ---------------------------------------------------------------------
  // Recommender

  /** Rows C..T, `chr(ord("C") + j)`. */
  function StallRow(j: nat): (row: string)
    requires j < 18
    ensures |row| == 1 && 'C' <= row[0] <= 'T'
  {
    [(('C' as int) + j) as char]
  }

  /** `f"{row}{k}"` */
  function Wanted(row: string, k: int): string {
    row + IntToString(k)
  }

  /** Within a row, distinct numbers name distinct seats: the left and right
      seats the scan asks for at a non-zero offset are never the same label. */
  lemma WantedInjective(row: string, j: int, k: int)
    ensures Wanted(row, j) == Wanted(row, k) <==> j == k
  {
    if Wanted(row, j) == Wanted(row, k) {
      assert Wanted(row, j)[|row|..] == IntToString(j);
      assert Wanted(row, k)[|row|..] == IntToString(k);
      IntToStringInjective(j, k);
    }
  }

  /** `any(s.seat_number == number and not s.is_booked for s in seats)` */
  predicate HasFree(seats: seq<Seat>, number: string) {
    exists i :: 0 <= i < |seats| && seats[i].number == number && !seats[i].isBooked
  }

  /** `next(s for s in seats if s.seat_number == number)`: the first seat with
      that number, free or not. */
  function FirstNumbered(seats: seq<Seat>, number: string): (s: Seat)
    requires exists i :: 0 <= i < |seats| && seats[i].number == number
    ensures s.number == number
    ensures exists i ::
      && 0 <= i < |seats| && seats[i] == s
      && forall j :: 0 <= j < i ==> seats[j].number != number
    decreases |seats|
  {
    if seats[0].number == number then seats[0]
    else
      var s := FirstNumbered(seats[1..], number);
      var i :| 0 <= i < |seats| - 1 && seats[1..][i] == s
        && forall j :: 0 <= j < i ==> seats[1..][j].number != number;
      assert seats[i + 1] == s;
      s
  }

  /** With distinct seat numbers the first seat of a number is the free one. */
  lemma FirstNumberedIsFree(seats: seq<Seat>, number: string)
    requires NumbersDistinct(seats)
    requires HasFree(seats, number)
    ensures !FirstNumbered(seats, number).isBooked
  {
    var k :| 0 <= k < |seats| && seats[k].number == number && !seats[k].isBooked;
    var s := FirstNumbered(seats, number);
    var i :| 0 <= i < |seats| && seats[i] == s && forall j :: 0 <= j < i ==> seats[j].number != number;
    assert !(i < k) && !(k < i);
  }

  /** A recommendation: the first seat of some number `row` + k of a stall
      row, k within twelve of the centre seat 10, when that number has a
      free seat. */
  ghost predicate Recommendable(ground: map<string, seq<Seat>>, s: Seat) {
    exists j, k :: 0 <= j < 18 && -2 <= k <= 22
      && HasFree(Get(ground, StallRow(j)), Wanted(StallRow(j), k))
      && s == FirstNumbered(Get(ground, StallRow(j)), Wanted(StallRow(j), k))
  }

  /** No two seats of `seats` share a number, as in a generated layout. */
  predicate NumbersDistinct(seats: seq<Seat>) {
    forall i, j :: 0 <= i < j < |seats| ==> seats[i].number != seats[j].number
  }

  /** `next` takes the first seat of the wanted number, booked or not; it is
      the free one when the stall rows hold each number once. */
  lemma RecommendableIsFree(ground: map<string, seq<Seat>>, s: Seat)
    requires forall j :: 0 <= j < 18 ==> NumbersDistinct(Get(ground, StallRow(j)))
    requires Recommendable(ground, s)
    ensures !s.isBooked
  {
    var j, k :| 0 <= j < 18 && -2 <= k <= 22
      && HasFree(Get(ground, StallRow(j)), Wanted(StallRow(j), k))
      && s == FirstNumbered(Get(ground, StallRow(j)), Wanted(StallRow(j), k));
    FirstNumberedIsFree(Get(ground, StallRow(j)), Wanted(StallRow(j), k));
  }

  /** The seat numbers among `rec`. */
  function Numbers(rec: seq<Seat>): set<string>
    decreases |rec|
  {
    if rec == [] then {} else Numbers(rec[..|rec| - 1]) + {rec[|rec| - 1].number}
  }

  lemma NumbersAppend(rec: seq<Seat>, s: Seat)
    ensures Numbers(rec + [s]) == Numbers(rec) + {s.number}
  {
    assert (rec + [s])[..|rec|] == rec;
  }

  /** Row `j`'s number with offset `k` is free somewhere only if `rec`
      already recommends that number. */
  predicate Covered(ground: map<string, seq<Seat>>, j: nat, k: int, rec: seq<Seat>)
    requires j < 18
  {
    HasFree(Get(ground, StallRow(j)), Wanted(StallRow(j), k)) ==> Wanted(StallRow(j), k) in Numbers(rec)
  }

  /** Appends the first seat numbered `number` when one with that number is
      free. */
  method Consider(ground: map<string, seq<Seat>>, j: nat, k: int, rec: seq<Seat>) returns (r: seq<Seat>)
    requires j < 18 && -2 <= k <= 22
    requires forall i :: 0 <= i < |rec| ==> Recommendable(ground, rec[i])
    ensures r == if HasFree(Get(ground, StallRow(j)), Wanted(StallRow(j), k))
                 then rec + [FirstNumbered(Get(ground, StallRow(j)), Wanted(StallRow(j), k))]
                 else rec
    ensures |rec| <= |r| <= |rec| + 1 && r[..|rec|] == rec
    ensures forall i :: |rec| <= i < |r| ==> r[i] in Get(ground, StallRow(j))
    ensures Numbers(rec) <= Numbers(r)
    ensures Covered(ground, j, k, r)
    ensures forall i :: 0 <= i < |r| ==> Recommendable(ground, r[i])
  {
    var seats := Get(ground, StallRow(j));
    var number := Wanted(StallRow(j), k);
    r := rec;
    if HasFree(seats, number) {
      var s := FirstNumbered(seats, number);
      NumbersAppend(rec, s);
      r := rec + [s];
    }
  }

  /** One step of the inner loop: seat `10 - offset`, then seat
      `10 + offset`, of row `j`. */
  /** What one `if any(...): append(next(...))` adds for number k of row j:
      the first seat with that number when the number has a free seat. */
  function Pick(ground: map<string, seq<Seat>>, j: nat, k: int): seq<Seat>
    requires j < 18
  {
    var row := Get(ground, StallRow(j));
    if HasFree(row, Wanted(StallRow(j), k)) then [FirstNumbered(row, Wanted(StallRow(j), k))] else []
  }

  method ConsiderPair(ground: map<string, seq<Seat>>, j: nat, offset: nat, rec: seq<Seat>) returns (r: seq<Seat>)
    requires j < 18 && offset <= 12
    requires forall i :: 0 <= i < |rec| ==> Recommendable(ground, rec[i])
    requires forall k :: 10 - offset < k < 10 + offset ==> Covered(ground, j, k, rec)
    ensures r == rec + Pick(ground, j, 10 - offset) + Pick(ground, j, 10 + offset)
    ensures offset == 0 && HasFree(Get(ground, StallRow(j)), Wanted(StallRow(j), 10)) ==>
      |r| == |rec| + 2 && r[|rec|] == r[|rec| + 1]
    ensures |rec| <= |r| <= |rec| + 2 && r[..|rec|] == rec && Numbers(rec) <= Numbers(r)
    ensures forall i :: |rec| <= i < |r| ==> r[i] in Get(ground, StallRow(j))
    ensures forall i :: 0 <= i < |r| ==> Recommendable(ground, r[i])
    ensures forall k :: 10 - offset - 1 < k < 10 + offset + 1 ==> Covered(ground, j, k, r)
  {
    var left := Consider(ground, j, 10 - offset, rec);
    r := Consider(ground, j, 10 + offset, left);
    Grown(rec, left, r, Get(ground, StallRow(j)));
    PairCovered(ground, j, offset, rec, left, r);
    PairPicks(ground, j, offset, rec, left, r);
  }

  /** Two `Consider` steps add the left pick, then the right one; at offset 0
      both are seat 10. */
  lemma PairPicks(ground: map<string, seq<Seat>>, j: nat, offset: nat, rec: seq<Seat>, left: seq<Seat>, r: seq<Seat>)
    requires j < 18 && offset <= 12
    requires left == if HasFree(Get(ground, StallRow(j)), Wanted(StallRow(j), 10 - offset))
                     then rec + [FirstNumbered(Get(ground, StallRow(j)), Wanted(StallRow(j), 10 - offset))] else rec
    requires r == if HasFree(Get(ground, StallRow(j)), Wanted(StallRow(j), 10 + offset))
                  then left + [FirstNumbered(Get(ground, StallRow(j)), Wanted(StallRow(j), 10 + offset))] else left
    ensures r == rec + Pick(ground, j, 10 - offset) + Pick(ground, j, 10 + offset)
    ensures offset == 0 && HasFree(Get(ground, StallRow(j)), Wanted(StallRow(j), 10)) ==>
      |r| == |rec| + 2 && r[|rec|] == r[|rec| + 1]
  {
    assert left == rec + Pick(ground, j, 10 - offset);
    assert r == left + Pick(ground, j, 10 + offset);
  }

  /** Extending an extension of `rec` by seats of `row` extends `rec`. */
  lemma Grown(rec: seq<Seat>, mid: seq<Seat>, r: seq<Seat>, row: seq<Seat>)
    requires |rec| <= |mid| && mid[..|rec|] == rec && forall i :: |rec| <= i < |mid| ==> mid[i] in row
    requires |mid| <= |r| && r[..|mid|] == mid && forall i :: |mid| <= i < |r| ==> r[i] in row
    ensures |rec| <= |r| && r[..|rec|] == rec && forall i :: |rec| <= i < |r| ==> r[i] in row
  {
    assert r[..|rec|] == r[..|mid|][..|rec|];
    forall i | |rec| <= i < |mid| ensures r[i] in row {
      assert r[i] == r[..|mid|][i];
    }
  }

  /** Covering both seats of one offset widens the covered window by one
      on each side. */
  lemma PairCovered(ground: map<string, seq<Seat>>, j: nat, offset: nat, rec: seq<Seat>, left: seq<Seat>, r: seq<Seat>)
    requires j < 18
    requires forall k :: 10 - offset < k < 10 + offset ==> Covered(ground, j, k, rec)
    requires Numbers(rec) <= Numbers(left) <= Numbers(r)
    requires Covered(ground, j, 10 - offset, left) && Covered(ground, j, 10 + offset, r)
    ensures forall k :: 10 - offset - 1 < k < 10 + offset + 1 ==> Covered(ground, j, k, r)
  {
    forall k | 10 - offset - 1 < k < 10 + offset + 1 ensures Covered(ground, j, k, r) {
      if k == 10 - offset {
        assert Covered(ground, j, k, left);
      } else if k != 10 + offset {
        assert Covered(ground, j, k, rec);
      }
    }
  }

  /** One pass of the inner loop over row `j`: offsets 0..12, left then
      right, stopping once five seats are held. */
  method ScanRow(ground: map<string, seq<Seat>>, j: nat, rec: seq<Seat>) returns (r: seq<Seat>)
    requires j < 18 && |rec| < 5
    requires forall i :: 0 <= i < |rec| ==> Recommendable(ground, rec[i])
    ensures |rec| <= |r| <= 6 && r[..|rec|] == rec && Numbers(rec) <= Numbers(r)
    ensures forall i :: |rec| <= i < |r| ==> r[i] in Get(ground, StallRow(j))
    ensures forall i :: 0 <= i < |r| ==> Recommendable(ground, r[i])
    ensures |r| < 5 ==> forall k :: -2 <= k <= 22 ==> Covered(ground, j, k, r)
  {
    r := rec;
    var offset := 0;
    while offset < 13
      invariant 0 <= offset <= 13 && |rec| <= |r| < 5 && r[..|rec|] == rec && Numbers(rec) <= Numbers(r)
      invariant forall i :: |rec| <= i < |r| ==> r[i] in Get(ground, StallRow(j))
      invariant forall i :: 0 <= i < |r| ==> Recommendable(ground, r[i])
      invariant forall k :: 10 - offset < k < 10 + offset ==> Covered(ground, j, k, r)
    {
      var before := r;
      r := ConsiderPair(ground, j, offset, r);
      Grown(rec, before, r, Get(ground, StallRow(j)));
      if |r| >= 5 {
        return;
      }
      offset := offset + 1;
    }
  }

  /** The recommender of the user booking page: rows C..T in turn, in each
      seat 10 and then outward, left before right, offsets 0..12; it stops
      as soon as it holds five seats, so it never holds more than six. Every
      recommendation is a seat of a number with a free seat; if fewer than
      five come back, every such number of rows C..T has been recommended.
      At offset 0 left and right are both seat 10, which can be added twice. */
  method Recommend(ground: map<string, seq<Seat>>) returns (rec: seq<Seat>)
    ensures |rec| <= 6
    ensures forall i :: 0 <= i < |rec| ==> Recommendable(ground, rec[i])
    ensures |rec| < 5 ==> forall j, k :: 0 <= j < 18 && -2 <= k <= 22 ==> Covered(ground, j, k, rec)
  {
    rec := [];
    var j := 0;
    while j < 18
      invariant 0 <= j <= 18 && |rec| < 5
      invariant forall i :: 0 <= i < |rec| ==> Recommendable(ground, rec[i])
      invariant forall j', k :: 0 <= j' < j && -2 <= k <= 22 ==> Covered(ground, j', k, rec)
    {
      var before := rec;
      rec := ScanRow(ground, j, rec);
      if |rec| >= 5 {
        return;
      }
      forall j', k | 0 <= j' < j + 1 && -2 <= k <= 22 ensures Covered(ground, j', k, rec) {
        if j' < j {
          assert Covered(ground, j', k, before);
        }
      }
      j := j + 1;
    }
  }
}
