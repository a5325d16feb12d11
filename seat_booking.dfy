/**
 * The seat map of `src/pages/SeatBooking.js`: a fixed 6 x 8 grid whose seats are
 * labelled by a row letter and a 1-based column, a hard-coded list of unavailable
 * seats, and the ordered list of selected seat labels that `toggleSeat` updates.
 */
module SeatBooking {
  import opened Wrappers
  import opened Strings

  const Rows: nat := 6
  const Cols: nat := 8

  /** Seats that can never be selected. */
  const UnavailableSeats: seq<string> := ["A2", "A3", "D5", "E7", "E8"]

  // ---------------------------------------------------------------------------
  // Seat labels

  /** The label of the seat at 0-based `row` and `col`: the letter 'A' + row, then col + 1 in decimal. */
  function SeatLabel(row: nat, col: nat): (seat: string)
    requires row < Rows && col < Cols
    ensures ParseLabel(seat) == Some((row, col))
  {
    var digits := NatToDecimal(col + 1);
    var seat := [('A' as int + row) as char] + digits;
    assert seat[1..] == digits;
    DecimalRoundTrip(col + 1);
    seat
  }

  /** The grid position a label names, if it names one. */
  function ParseLabel(seat: string): (pos: Option<(nat, nat)>)
    ensures pos.Some? ==> pos.value.0 < Rows && pos.value.1 < Cols
  {
    if |seat| < 2 || !('A' <= seat[0] < ('A' as int + Rows) as char) || !AllDigits(seat[1..]) then None
    else
      var column := DecimalValue(seat[1..]);
      if 1 <= column <= Cols then Some((seat[0] as int - 'A' as int, column - 1)) else None
  }

  /** Two grid positions have the same label only if they are the same position. */
  lemma SeatLabelInjective(r1: nat, c1: nat, r2: nat, c2: nat)
    requires r1 < Rows && c1 < Cols && r2 < Rows && c2 < Cols
    requires SeatLabel(r1, c1) == SeatLabel(r2, c2)
    ensures r1 == r2 && c1 == c2
  {
    assert ParseLabel(SeatLabel(r1, c1)) == Some((r1, c1));
    assert ParseLabel(SeatLabel(r2, c2)) == Some((r2, c2));
  }

  /** Every seat label in the order the grid renders them: row by row, left to right. */
  function GridLabels(): (labels: seq<string>)
    ensures |labels| == Rows * Cols
    ensures forall row, col :: 0 <= row < Rows && 0 <= col < Cols ==>
      labels[row * Cols + col] == SeatLabel(row, col)
  {
    seq(Rows * Cols, i requires 0 <= i < Rows * Cols => SeatLabel(i / Cols, i % Cols))
  }

  predicate Distinct<T(==)>(s: seq<T>)
  {
    forall i, j :: 0 <= i < j < |s| ==> s[i] != s[j]
  }

  /** The 48 labels of the grid are pairwise different. */
  lemma GridLabelsDistinct()
    ensures Distinct(GridLabels())
  {
    var g := GridLabels();
    forall i, j | 0 <= i < j < |g| ensures g[i] != g[j] {
      assert i == (i / Cols) * Cols + i % Cols;
      assert j == (j / Cols) * Cols + j % Cols;
      if g[i] == g[j] {
        SeatLabelInjective(i / Cols, i % Cols, j / Cols, j % Cols);
      }
    }
  }

  /** The label of (row, col) is the grid's entry at row * Cols + col. */
  lemma SeatLabelInGrid(row: nat, col: nat)
    requires row < Rows && col < Cols
    ensures SeatLabel(row, col) in GridLabels()
  {
    var i := row * Cols + col;
    assert i / Cols == row && i % Cols == col;
    assert GridLabels()[i] == SeatLabel(row, col);
  }

  /** A duplicate-free sequence has as many distinct elements as entries. */
  lemma {:induction false} DistinctCardinality<T>(s: seq<T>)
    requires Distinct(s)
    ensures |set x | x in s| == |s|
  {
    if s != [] {
      DistinctCardinality(s[1..]);
      assert (set x | x in s) == {s[0]} + (set x | x in s[1..]);
      assert s[0] !in (set x | x in s[1..]);
    }
  }

  /** A set is no larger than any set containing it. */
  lemma {:induction false} SubsetCardinality<T>(a: set<T>, b: set<T>)
    requires a <= b
    ensures |a| <= |b|
  {
    if a != {} {
      var x :| x in a;
      SubsetCardinality(a - {x}, b - {x});
    }
  }

  /** A duplicate-free sequence drawn from `universe` minus the `blocked` entries is no longer
      than |universe| - |blocked|, when both lists are duplicate-free and `blocked` lies in
      `universe`. */
  lemma CountingBound<T>(sel: seq<T>, universe: seq<T>, blocked: seq<T>)
    requires Distinct(sel) && Distinct(universe) && Distinct(blocked)
    requires forall x :: x in blocked ==> x in universe
    requires forall x :: x in sel ==> x in universe && x !in blocked
    ensures |sel| <= |universe| - |blocked|
  {
    var u := set x | x in universe;
    var b := set x | x in blocked;
    var s := set x | x in sel;
    DistinctCardinality(sel);
    DistinctCardinality(universe);
    DistinctCardinality(blocked);
    assert u == (u - b) + b;
    assert |u| == |u - b| + |b|;
    SubsetCardinality(s, u - b);
  }

  /** The unavailable seats are five different seats of the grid. */
  lemma UnavailableSeatsOnGrid()
    ensures Distinct(UnavailableSeats)
    ensures forall x :: x in UnavailableSeats ==> x in GridLabels()
  {
    assert NatToDecimal(2) == "2" && NatToDecimal(3) == "3" && NatToDecimal(5) == "5";
    assert NatToDecimal(7) == "7" && NatToDecimal(8) == "8";
    assert SeatLabel(0, 1) == "A2" && SeatLabel(0, 2) == "A3" && SeatLabel(3, 4) == "D5";
    assert SeatLabel(4, 6) == "E7" && SeatLabel(4, 7) == "E8";
    SeatLabelInGrid(0, 1);
    SeatLabelInGrid(0, 2);
    SeatLabelInGrid(3, 4);
    SeatLabelInGrid(4, 6);
    SeatLabelInGrid(4, 7);
  }

  // ---------------------------------------------------------------------------
  // The selection list

  /** `prev.filter(s => s !== seat)`: every entry but `seat`, in the original order. */
  function Without(prev: seq<string>, seat: string): (rest: seq<string>)
    ensures forall x :: x in rest <==> x in prev && x != seat
    ensures |rest| <= |prev|
  {
    if prev == [] then []
    else (if prev[0] == seat then [] else [prev[0]]) + Without(prev[1..], seat)
  }

  /** Filtering out a seat that is absent changes nothing. */
  lemma {:induction false} WithoutAbsent(prev: seq<string>, seat: string)
    requires seat !in prev
    ensures Without(prev, seat) == prev
  {
    if prev != [] {
      WithoutAbsent(prev[1..], seat);
    }
  }

  /** In a duplicate-free selection, filtering out the seat at index k removes exactly that
      entry and keeps the others in their order. */
  lemma {:induction false} WithoutAt(prev: seq<string>, k: nat)
    requires Distinct(prev) && k < |prev|
    ensures Without(prev, prev[k]) == prev[..k] + prev[k + 1..]
  {
    if k == 0 {
      WithoutAbsent(prev[1..], prev[0]);
    } else {
      WithoutAt(prev[1..], k - 1);
      assert prev[1..][..k - 1] == prev[1..k];
      assert prev[1..][k..] == prev[k + 1..];
      assert prev[..k] == [prev[0]] + prev[1..k];
    }
  }

  /** Filtering distributes over concatenation. */
  lemma {:induction false} WithoutAppend(a: seq<string>, b: seq<string>, seat: string)
    ensures Without(a + b, seat) == Without(a, seat) + Without(b, seat)
  {
    if a != [] {
      assert (a + b)[1..] == a[1..] + b;
      WithoutAppend(a[1..], b, seat);
    } else {
      assert a + b == b;
    }
  }

  /** Filtering keeps a selection free of duplicates. */
  lemma {:induction false} WithoutDistinct(prev: seq<string>, seat: string)
    requires Distinct(prev)
    ensures Distinct(Without(prev, seat))
  {
    if prev != [] {
      WithoutDistinct(prev[1..], seat);
      assert prev[0] !in prev[1..];
    }
  }

  /** The state update `toggleSeat` applies to the selection for `seat`. */
  function Toggle(prev: seq<string>, seat: string): (next: seq<string>)
    ensures seat in UnavailableSeats ==> next == prev
    ensures seat !in UnavailableSeats && seat in prev ==> seat !in next
    ensures seat !in UnavailableSeats && seat !in prev ==> next == prev + [seat]
    ensures forall x :: x != seat ==> (x in next <==> x in prev)
  {
    if seat in UnavailableSeats then prev
    else if seat in prev then Without(prev, seat)
    else prev + [seat]
  }

  /** Toggling a selected seat removes it and keeps every other seat in its place. */
  lemma ToggleRemovesInOrder(prev: seq<string>, k: nat)
    requires Distinct(prev) && k < |prev| && prev[k] !in UnavailableSeats
    ensures Toggle(prev, prev[k]) == prev[..k] + prev[k + 1..]
  {
    WithoutAt(prev, k);
  }

  /** Toggling an available, unselected seat twice restores the selection. */
  lemma ToggleTwice(prev: seq<string>, seat: string)
    requires seat !in UnavailableSeats && seat !in prev
    ensures Toggle(Toggle(prev, seat), seat) == prev
  {
    WithoutAppend(prev, [seat], seat);
    WithoutAbsent(prev, seat);
    assert Without([seat], seat) == [];
  }

  /** What every reachable selection satisfies: grid seats only, none unavailable, no repeats. */
  ghost predicate ValidSelection(sel: seq<string>)
  {
    && Distinct(sel)
    && (forall x :: x in sel ==> x in GridLabels() && x !in UnavailableSeats)
  }

  /** Toggling a grid seat keeps the selection valid. */
  lemma ToggleKeepsValid(prev: seq<string>, row: nat, col: nat)
    requires row < Rows && col < Cols
    requires ValidSelection(prev)
    ensures ValidSelection(Toggle(prev, SeatLabel(row, col)))
  {
    var seat := SeatLabel(row, col);
    SeatLabelInGrid(row, col);
    if seat in prev {
      WithoutDistinct(prev, seat);
    }
  }

  /** A valid selection holds at most 48 - 5 = 43 seats. */
  lemma SelectionBound(sel: seq<string>)
    requires ValidSelection(sel)
    ensures |sel| <= Rows * Cols - |UnavailableSeats|
  {
    GridLabelsDistinct();
    UnavailableSeatsOnGrid();
    CountingBound(sel, GridLabels(), UnavailableSeats);
  }

  // ---------------------------------------------------------------------------
  // The "Selected Seats" line

  const BookedPrefix: string := "Booked seats: "

  /** `selectedSeats.join(", ") || "None"`. */
  function Summary(sel: seq<string>): (text: string)
    ensures sel == [] ==> text == "None"
    ensures sel != [] && sel[0] != "" ==> text == Join(sel, ", ")
  {
    var joined := Join(sel, ", ");
    if joined == "" then "None" else joined
  }

  /** For a valid selection the summary reads "None" exactly when nothing is selected. */
  lemma SummaryNoneIffEmpty(sel: seq<string>)
    requires ValidSelection(sel)
    ensures Summary(sel) == "None" <==> sel == []
  {
    if sel != [] {
      assert sel[0] in GridLabels();
      var i :| 0 <= i < Rows * Cols && GridLabels()[i] == sel[0];
      assert Summary(sel)[0] == sel[0][0];
      assert 'A' <= sel[0][0] <= 'F';
    }
  }

  /** Selecting one more seat extends the summary by ", " and its label. */
  lemma SummaryAppend(sel: seq<string>, seat: string)
    requires sel != [] && sel[0] != ""
    ensures Summary(sel + [seat]) == Summary(sel) + ", " + seat
  {
    JoinSnoc(sel, seat, ", ");
  }

  /** The "Confirm Booking" alert: `Booked seats: ${selectedSeats.join(", ")}`. */
  function BookingAlert(sel: seq<string>): (message: string)
    ensures |message| >= |BookedPrefix| && message[..|BookedPrefix|] == BookedPrefix
    ensures sel == [] ==> message == BookedPrefix
    ensures sel != [] && sel[0] != "" ==> message == BookedPrefix + Summary(sel)
  {
    Prefixed(BookedPrefix, Join(sel, ", "))
  }

  /** For a valid selection the alert lists the same seats as the summary line, except that
      with nothing selected it ends after the prefix where the summary reads "None". */
  lemma BookingAlertMatchesSummary(sel: seq<string>)
    requires ValidSelection(sel)
    ensures sel != [] ==> BookingAlert(sel) == BookedPrefix + Summary(sel)
    ensures sel == [] ==> BookingAlert(sel) == BookedPrefix && Summary(sel) == "None"
  {
    if sel != [] {
      assert sel[0] in GridLabels();
      var i :| 0 <= i < Rows * Cols && GridLabels()[i] == sel[0];
      assert |sel[0]| >= 1;
    }
  }

  // ---------------------------------------------------------------------------
  // The page

  class SeatBookingPage {
    var selectedSeats: seq<string>
    /** The messages shown with `alert`, in order. */
    var alerts: seq<string>

    ghost predicate Valid()
      reads this
    {
      ValidSelection(selectedSeats)
    }

    constructor ()
      ensures Valid() && selectedSeats == [] && alerts == []
    {
      selectedSeats := [];
      alerts := [];
    }

    /** `toggleSeat(row, col)` for a seat of the grid. */
    method ToggleSeat(row: nat, col: nat)
      requires row < Rows && col < Cols
      requires Valid()
      modifies this
      ensures Valid()
      ensures selectedSeats == Toggle(old(selectedSeats), SeatLabel(row, col))
      ensures |selectedSeats| <= Rows * Cols - |UnavailableSeats|
      ensures alerts == old(alerts)
    {
      var seat := [('A' as int + row) as char] + NatToDecimal(col + 1);
      assert seat == SeatLabel(row, col);
      ToggleKeepsValid(selectedSeats, row, col);
      SelectionBound(Toggle(selectedSeats, seat));
      if seat in UnavailableSeats {
        return;
      }
      if seat in selectedSeats {
        selectedSeats := Without(selectedSeats, seat);
      } else {
        selectedSeats := selectedSeats + [seat];
      }
    }

    /** The "Confirm Booking" button: alerts the selected seats and changes nothing else. */
    method ConfirmBooking()
      modifies this
      ensures selectedSeats == old(selectedSeats)
      ensures alerts == old(alerts) + [BookingAlert(selectedSeats)]
    {
      alerts := alerts + [Prefixed(BookedPrefix, Join(selectedSeats, ", "))];
    }
  }
}
