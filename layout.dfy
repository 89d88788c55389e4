/**
 * The fixed seat layout a show receives when it is first saved: ground
 * rows A to T of 26 seats, rows A and B pre-booked, and, when the show
 * includes the balcony, rows BA to BO of 22 free seats.
 */
module SeatLayout {
  import opened Text
  import opened Seqs

  /** A seat to create: its `seat_number` and its initial `is_booked`. */
  datatype SeatSpec = SeatSpec(number: string, isBooked: bool)

  const GroundWidth: nat := 26
  const BalconyWidth: nat := 22

  /** `[chr(i) for i in range(ord("A"), ord("T") + 1)]` */
  function GroundRows(): (rows: seq<string>)
    ensures |rows| == 20
  {
    seq(20, i requires 0 <= i < 20 => [(('A' as int) + i) as char])
  }

  /** `[f"B{chr(i)}" for i in range(ord("A"), ord("O") + 1)]` */
  function BalconyRows(): (rows: seq<string>)
    ensures |rows| == 15
  {
    seq(15, i requires 0 <= i < 15 => ['B', (('A' as int) + i) as char])
  }

  /** `row in ["A", "B"]` */
  predicate PreBooked(row: string) {
    row == "A" || row == "B"
  }

  predicate IsLabel(row: string) {
    forall i :: 0 <= i < |row| ==> IsLetter(row[i])
  }

  /** Seats `row1` .. `row<width>` of one row, all with the same flag. */
  function RowSeats(row: string, width: nat, booked: bool): (r: seq<SeatSpec>)
    ensures |r| == width
  {
    seq(width, i requires 0 <= i < width => SeatSpec(row + Decimal(i + 1), booked))
  }

  /** The seats of `rows`, row after row; when `preBook` holds, the seats of
      rows A and B are booked. */
  function Block(rows: seq<string>, width: nat, preBook: bool): seq<SeatSpec>
    decreases |rows|
  {
    if rows == [] then []
    else
      var last := rows[|rows| - 1];
      Block(rows[..|rows| - 1], width, preBook) + RowSeats(last, width, preBook && PreBooked(last))
  }

  /** The whole layout `Show.save` creates. */
  function Layout(includeBalcony: bool): seq<SeatSpec> {
    Block(GroundRows(), GroundWidth, true)
      + (if includeBalcony then Block(BalconyRows(), BalconyWidth, false) else [])
  }

  lemma BlockStep(rows: seq<string>, r: nat, width: nat, preBook: bool)
    requires r < |rows|
    ensures Block(rows[..r + 1], width, preBook)
      == Block(rows[..r], width, preBook) + RowSeats(rows[r], width, preBook && PreBooked(rows[r]))
  {
    assert rows[..r + 1][..r] == rows[..r];
  }

  lemma RowStep(row: string, width: nat, booked: bool, num: nat)
    requires 1 <= num <= width
    ensures RowSeats(row, width, booked)[..num]
      == RowSeats(row, width, booked)[..num - 1] + [SeatSpec(row + Decimal(num), booked)]
  {
  }

  /** The inner loop of `Show.save`: seats 1 to `width` of one row. */
  method AppendRow(seats: seq<SeatSpec>, row: string, width: nat, booked: bool) returns (r: seq<SeatSpec>)
    ensures r == seats + RowSeats(row, width, booked)
  {
    r := seats;
    for num := 1 to width + 1
      invariant r == seats + RowSeats(row, width, booked)[..num - 1]
    {
      RowStep(row, width, booked, num);
      r := r + [SeatSpec(row + Decimal(num), booked)];
    }
    assert RowSeats(row, width, booked)[..width] == RowSeats(row, width, booked);
  }

  /** The nested loops of `Show.save` that create the seats, in creation order. */
  method GenerateLayout(includeBalcony: bool) returns (seats: seq<SeatSpec>)
    ensures seats == Layout(includeBalcony)
  {
    seats := [];
    var ground := GroundRows();
    for r := 0 to |ground|
      invariant seats == Block(ground[..r], GroundWidth, true)
    {
      var row := ground[r];
      seats := AppendRow(seats, row, GroundWidth, row == "A" || row == "B");
      BlockStep(ground, r, GroundWidth, true);
    }
    assert ground[..|ground|] == ground;
    if includeBalcony {
      var balcony := BalconyRows();
      var groundSeats := seats;
      for r := 0 to |balcony|
        invariant seats == groundSeats + Block(balcony[..r], BalconyWidth, false)
      {
        seats := AppendRow(seats, balcony[r], BalconyWidth, false);
        BlockStep(balcony, r, BalconyWidth, false);
      }
      assert balcony[..|balcony|] == balcony;
    }
  }

  lemma {:induction false} BlockLength(rows: seq<string>, width: nat, preBook: bool)
    ensures |Block(rows, width, preBook)| == |rows| * width
    decreases |rows|
  {
    if rows != [] {
      var m := |rows| - 1;
      BlockLength(rows[..m], width, preBook);
      assert |Block(rows, width, preBook)| == m * width + width;
      assert m * width + width == (m + 1) * width;
    }
  }

  /** 520 ground seats, plus 330 balcony seats when the balcony is included. */
  lemma LayoutSize(includeBalcony: bool)
    ensures |Layout(includeBalcony)| == if includeBalcony then 850 else 520
  {
    BlockLength(GroundRows(), GroundWidth, true);
    BlockLength(BalconyRows(), BalconyWidth, false);
  }

  /** Every seat of a block is a row label followed by a number in 1..width,
      booked exactly when pre-booking applies to its row. */
  lemma {:induction false} BlockSeat(rows: seq<string>, width: nat, preBook: bool, k: nat)
    requires k < |Block(rows, width, preBook)|
    ensures exists r, n ::
              && 0 <= r < |rows| && 1 <= n <= width
              && Block(rows, width, preBook)[k] == SeatSpec(rows[r] + Decimal(n), preBook && PreBooked(rows[r]))
    decreases |rows|
  {
    var init := rows[..|rows| - 1];
    var last := rows[|rows| - 1];
    var front := Block(init, width, preBook);
    if k < |front| {
      BlockSeat(init, width, preBook, k);
      var r, n :| 0 <= r < |init| && 1 <= n <= width
        && front[k] == SeatSpec(init[r] + Decimal(n), preBook && PreBooked(init[r]));
      assert rows[r] == init[r];
    } else {
      var j := k - |front|;
      assert Block(rows, width, preBook)[k] == SeatSpec(last + Decimal(j + 1), preBook && PreBooked(last));
    }
  }

  lemma GroundRowsAreLabels()
    ensures forall r :: 0 <= r < 20 ==> IsLabel(GroundRows()[r]) && |GroundRows()[r]| == 1
    ensures forall r :: 0 <= r < 20 ==> (PreBooked(GroundRows()[r]) <==> r < 2)
  {
    forall r | 0 <= r < 20 ensures PreBooked(GroundRows()[r]) <==> r < 2 {
      if r >= 2 {
        assert GroundRows()[r][0] != 'A' && GroundRows()[r][0] != 'B';
      }
    }
  }

  lemma BalconyRowsAreLabels()
    ensures forall r :: 0 <= r < 15 ==> IsLabel(BalconyRows()[r]) && |BalconyRows()[r]| == 2
    ensures forall r :: 0 <= r < 15 ==> BalconyRows()[r][0] == 'B'
  {
  }

  /** Row letters of a seat number: the row label it was made from. */
  function RowOf(number: string): string {
    Letters(number)
  }

  /** The balcony test the booking page applies to a row label. */
  predicate IsBalconyRow(row: string) {
    |row| >= 2 && row[0] == 'B'
  }

  /** The facts `LayoutBooking` states, for one ground seat. */
  lemma GroundSeatFacts(ground: seq<SeatSpec>, k: nat)
    requires ground == Block(GroundRows(), GroundWidth, true) && k < |ground|
    ensures var s := ground[k];
      && (s.isBooked <==> RowOf(s.number) == "A" || RowOf(s.number) == "B")
      && !IsBalconyRow(RowOf(s.number))
      && IsLabel(RowOf(s.number))
      && 1 <= Value(Digits(s.number))
      && s.number == RowOf(s.number) + Decimal(Value(Digits(s.number)))
  {
    GroundRowsAreLabels();
    BlockSeat(GroundRows(), GroundWidth, true, k);
    var r, n :| 0 <= r < 20 && 1 <= n <= GroundWidth
      && ground[k] == SeatSpec(GroundRows()[r] + Decimal(n), PreBooked(GroundRows()[r]));
    LabelAndNumber(GroundRows()[r], n);
  }

  /** ... and for one balcony seat. */
  lemma BalconySeatFacts(balcony: seq<SeatSpec>, k: nat)
    requires balcony == Block(BalconyRows(), BalconyWidth, false) && k < |balcony|
    ensures var s := balcony[k];
      && !s.isBooked && RowOf(s.number) != "A" && RowOf(s.number) != "B"
      && IsLabel(RowOf(s.number))
      && 1 <= Value(Digits(s.number))
      && s.number == RowOf(s.number) + Decimal(Value(Digits(s.number)))
  {
    BalconyRowsAreLabels();
    BlockSeat(BalconyRows(), BalconyWidth, false, k);
    var r, n :| 0 <= r < 15 && 1 <= n <= BalconyWidth
      && balcony[k] == SeatSpec(BalconyRows()[r] + Decimal(n), false);
    LabelAndNumber(BalconyRows()[r], n);
  }

  /** A seat of the layout is booked exactly when it is in row A or B; a
      balcony seat exists only when the balcony is included and is free; every
      seat number is its row label followed by its number. */
  lemma LayoutBooking(includeBalcony: bool, k: nat)
    requires k < |Layout(includeBalcony)|
    ensures var s := Layout(includeBalcony)[k];
      && (s.isBooked <==> RowOf(s.number) == "A" || RowOf(s.number) == "B")
      && (IsBalconyRow(RowOf(s.number)) ==> includeBalcony && !s.isBooked)
      && IsLabel(RowOf(s.number))
      && 1 <= Value(Digits(s.number))
      && s.number == RowOf(s.number) + Decimal(Value(Digits(s.number)))
  {
    var ground := Block(GroundRows(), GroundWidth, true);
    if k < |ground| {
      GroundSeatFacts(ground, k);
    } else {
      var balcony := Block(BalconyRows(), BalconyWidth, false);
      assert includeBalcony && Layout(includeBalcony)[k] == balcony[k - |ground|];
      BalconySeatFacts(balcony, k - |ground|);
    }
  }

  predicate NumbersDistinct(specs: seq<SeatSpec>) {
    forall i, j :: 0 <= i < j < |specs| ==> specs[i].number != specs[j].number
  }

  /** Seat numbers of a block are pairwise different when its row labels are. */
  lemma {:induction false} BlockNumbersDistinct(rows: seq<string>, width: nat, preBook: bool)
    requires Distinct(rows)
    requires forall r :: 0 <= r < |rows| ==> IsLabel(rows[r])
    ensures NumbersDistinct(Block(rows, width, preBook))
    decreases |rows|
  {
    var b := Block(rows, width, preBook);
    if rows != [] {
      var init := rows[..|rows| - 1];
      var last := rows[|rows| - 1];
      var front := Block(init, width, preBook);
      var tail := RowSeats(last, width, preBook && PreBooked(last));
      BlockNumbersDistinct(init, width, preBook);
      assert b == front + tail;
      forall i, j | 0 <= i < j < |b| ensures b[i].number != b[j].number {
        if j < |front| {
          assert b[i] == front[i] && b[j] == front[j];
        } else {
          var n2 := j - |front| + 1;
          assert b[j].number == last + Decimal(n2);
          if i >= |front| {
            LabelAndNumberInjective(last, i - |front| + 1, last, n2);
          } else {
            BlockSeat(init, width, preBook, i);
            var r, n :| 0 <= r < |init| && 1 <= n <= width
              && front[i] == SeatSpec(init[r] + Decimal(n), preBook && PreBooked(init[r]));
            assert init[r] == rows[r] && r < |rows| - 1;
            LabelAndNumberInjective(init[r], n, last, n2);
          }
        }
      }
    }
  }

  lemma GroundRowsDistinct()
    ensures Distinct(GroundRows())
  {
    var g := GroundRows();
    forall i, j | 0 <= i < j < |g| ensures g[i] != g[j] {
      assert g[i][0] != g[j][0];
    }
  }

  lemma BalconyRowsDistinct()
    ensures Distinct(BalconyRows())
  {
    var b := BalconyRows();
    forall i, j | 0 <= i < j < |b| ensures b[i] != b[j] {
      assert b[i][1] != b[j][1];
    }
  }

  /** Two sequences with distinct numbers and no number in common have
      distinct numbers together. */
  lemma ConcatNumbersDistinct(a: seq<SeatSpec>, b: seq<SeatSpec>)
    requires NumbersDistinct(a) && NumbersDistinct(b)
    requires forall i, j :: 0 <= i < |a| && 0 <= j < |b| ==> a[i].number != b[j].number
    ensures NumbersDistinct(a + b)
  {
    var c := a + b;
    forall i, j | 0 <= i < j < |c| ensures c[i].number != c[j].number {
      if j < |a| {
        assert c[i] == a[i] && c[j] == a[j];
      } else if i >= |a| {
        assert c[i] == b[i - |a|] && c[j] == b[j - |a|];
      } else {
        assert c[i] == a[i] && c[j] == b[j - |a|];
      }
    }
  }

  /** A ground seat and a balcony seat never share a number: their row
      labels have one and two letters. */
  lemma GroundBalconyDiffer(ground: seq<SeatSpec>, balcony: seq<SeatSpec>, i: nat, j: nat)
    requires ground == Block(GroundRows(), GroundWidth, true)
    requires balcony == Block(BalconyRows(), BalconyWidth, false)
    requires i < |ground| && j < |balcony|
    ensures ground[i].number != balcony[j].number
  {
    GroundRowsAreLabels();
    BalconyRowsAreLabels();
    BlockSeat(GroundRows(), GroundWidth, true, i);
    var r1, n1 :| 0 <= r1 < 20 && 1 <= n1 <= GroundWidth
      && ground[i] == SeatSpec(GroundRows()[r1] + Decimal(n1), PreBooked(GroundRows()[r1]));
    BlockSeat(BalconyRows(), BalconyWidth, false, j);
    var r2, n2 :| 0 <= r2 < 15 && 1 <= n2 <= BalconyWidth
      && balcony[j] == SeatSpec(BalconyRows()[r2] + Decimal(n2), false);
    LabelAndNumberInjective(GroundRows()[r1], n1, BalconyRows()[r2], n2);
  }

  /** No two seats of a show's layout share a seat number. */
  lemma LayoutNumbersDistinct(includeBalcony: bool)
    ensures NumbersDistinct(Layout(includeBalcony))
  {
    var ground := Block(GroundRows(), GroundWidth, true);
    GroundRowsAreLabels();
    GroundRowsDistinct();
    BlockNumbersDistinct(GroundRows(), GroundWidth, true);
    if includeBalcony {
      var balcony := Block(BalconyRows(), BalconyWidth, false);
      BalconyRowsAreLabels();
      BalconyRowsDistinct();
      BlockNumbersDistinct(BalconyRows(), BalconyWidth, false);
      forall i, j | 0 <= i < |ground| && 0 <= j < |balcony| ensures ground[i].number != balcony[j].number {
        GroundBalconyDiffer(ground, balcony, i, j);
      }
      ConcatNumbersDistinct(ground, balcony);
    } else {
      assert Layout(includeBalcony) == ground + [];
    }
  }

  function IsBooked(s: SeatSpec): bool {
    s.isBooked
  }

  lemma {:induction false} BlockBookedCount(rows: seq<string>, width: nat, preBook: bool)
    ensures Count(Block(rows, width, preBook), IsBooked)
      == if preBook then width * Count(rows, PreBooked) else 0
    decreases |rows|
  {
    if rows != [] {
      var init := rows[..|rows| - 1];
      var last := rows[|rows| - 1];
      var flag := preBook && PreBooked(last);
      var tail := RowSeats(last, width, flag);
      BlockBookedCount(init, width, preBook);
      CountAppend(Block(init, width, preBook), tail, IsBooked);
      if flag {
        CountAll(tail, IsBooked);
      } else {
        CountNone(tail, IsBooked);
      }
      if preBook {
        var c := Count(init, PreBooked);
        var d := if PreBooked(last) then 1 else 0;
        assert Count(rows, PreBooked) == c + d;
        assert width * c + width * d == width * (c + d);
      }
    }
  }

  /** Exactly the 52 seats of rows A and B start booked: 468 free seats
      without the balcony, 798 with it. */
  lemma LayoutBookedCount(includeBalcony: bool)
    ensures Count(Layout(includeBalcony), IsBooked) == 2 * GroundWidth
    ensures Count(Layout(includeBalcony), (s: SeatSpec) => !s.isBooked)
      == if includeBalcony then 798 else 468
  {
    var g := GroundRows();
    GroundRowsAreLabels();
    BlockBookedCount(g, GroundWidth, true);
    BlockBookedCount(BalconyRows(), BalconyWidth, false);
    assert g == g[..2] + g[2..];
    CountAppend(g[..2], g[2..], PreBooked);
    CountAll(g[..2], PreBooked);
    CountNone(g[2..], PreBooked);
    var ground := Block(g, GroundWidth, true);
    var balcony := Block(BalconyRows(), BalconyWidth, false);
    if includeBalcony {
      CountAppend(ground, balcony, IsBooked);
    } else {
      assert Layout(includeBalcony) == ground + [];
      CountAppend(ground, [], IsBooked);
    }
    LayoutSize(includeBalcony);
    CountComplement(Layout(includeBalcony), IsBooked, (s: SeatSpec) => !s.isBooked);
  }
}
