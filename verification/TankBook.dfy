/** The tank's tables as they are updated: rows appended, statuses flipped, reconciliations frozen.

Each method is one transaction.  Its contract is the corresponding step of the seal chain, so what
holds of every run there holds of every sequence of calls here.  Litres arrive as decimal text.
 */
module TankBook {
  import opened Numeric
  import opened DecimalText
  import opened StockLedger
  import opened SealChain
  import opened Wrappers

  predicate Readable(text: string) {
    WellFormed(TrimSpace(text))
  }

  /** Decimal text read into a `numeric(14,3)` column, in thousandths. */
  function Cast(text: string): int
    requires Readable(text)
  {
    Round(Value(TrimSpace(text)) * 1000.0)
  }

  /** A stored figure survives the trip through its text. */
  lemma CastText(n: int)
    ensures Readable(Text(n)) && Cast(Text(n)) == n
  {
    StoredTextIsTrimmed(n);
    TextRoundTrip(n);
    assert Value(Text(n)) * 1000.0 == n as real;
    RoundOfStored(n);
  }

  lemma CastOf(text: string, n: int)
    requires text == Text(n)
    ensures Readable(text) && Cast(text) == n
  {
    CastText(n);
  }

  /** Printing, negating and reading back a stored figure negates it. */
  lemma CastNegated(n: int, contra: int, text: string)
    requires contra == -n && text == Negate(Text(n))
    ensures Readable(text) && Cast(text) == contra
  {
    NegateIs(n, contra, Text(n));
    CastOf(text, contra);
  }

  class TankLedger {
    var rows: seq<Movement>
    var nextSeq: nat
    var recons: map<nat, Recon>

    function View(): Book
      reads this
    {
      Book(rows, nextSeq, recons)
    }

    constructor ()
      ensures View() == Fresh
    {
      rows, nextSeq, recons := [], 1, map[];
    }

    method PostMovement(kind: Kind, source: Source, text: string) returns (r: Result<Movement, Error>)
      modifies this
      ensures !Readable(text) ==>
        && View() == old(View())
        && r == Err(if RequiresOpening(kind) && !HasOpening(old(View())) then NoOpening else BadNumber)
      ensures Readable(text) ==>
        var spec := Post(old(View()), kind, source, Cast(text));
        && View() == Outcome(old(View()), spec)
        && (r.Ok? <==> spec.Ok?)
        && (r.Err? ==> r.error == spec.error)
        && (r.Ok? ==> r.value == rows[|rows| - 1])
    {
      if RequiresOpening(kind) && !HasOpening(View()) {
        return Err(NoOpening);
      }
      if !Readable(text) {
        return Err(BadNumber);
      }
      if kind.Opening? && !source.Correction? && HasOpening(View()) {
        return Err(OpeningExists);
      }
      var m := Movement(nextSeq, kind, source, Cast(text), false);
      rows, nextSeq := rows + [m], nextSeq + 1;
      r := Ok(m);
    }

    method SetOpeningBalance(source: Source, text: string) returns (r: Result<Movement, Error>)
      requires !source.Correction?
      modifies this
      ensures !Readable(text) ==> r.Err? && View() == old(View())
      ensures r.Ok? <==> Readable(text) && !old(HasOpening(View()))
      ensures Readable(text) ==> View() == Outcome(old(View()), SetOpening(old(View()), source, Cast(text)))
      ensures old(HasOpening(View())) <==> r == Err(OpeningExists)
    {
      if HasOpening(View()) {
        return Err(OpeningExists);
      }
      r := PostMovement(Opening, source, text);
    }

    method FlipReversed(num: nat)
      modifies this`rows
      ensures rows == MarkReversed(old(rows), num)
    {
      var i := 0;
      while i < |rows|
        invariant i <= |rows| == |old(rows)|
        invariant forall j :: 0 <= j < i ==> rows[j] == MarkReversed(old(rows), num)[j]
        invariant forall j :: i <= j < |rows| ==> rows[j] == old(rows)[j]
      {
        if rows[i].num == num {
          rows := rows[i := rows[i].(reversed := true)];
        }
        i := i + 1;
      }
    }

    /** The contra's litres go through the text of the original, negated. */
    method ReverseMovement(num: nat) returns (r: Result<Movement, Error>)
      modifies this
      ensures View() == Outcome(old(View()), Reverse(old(View()), num))
      ensures r.Ok? <==> Reverse(old(View()), num).Ok?
      ensures r.Ok? ==> r.value.litres == -Find(old(rows), num).value.litres
      ensures r.Err? ==> r.error == Reverse(old(View()), num).error
    {
      var before := rows;
      var found := Find(rows, num);
      if found.None? {
        return Err(MovementNotFound);
      }
      if found.value.reversed {
        return Err(AlreadyReversed);
      }
      FlipReversed(num);
      var text := Negate(Text(found.value.litres));
      CastNegated(found.value.litres, Contra(found.value), text);
      r := PostMovement(found.value.kind, Correction, text);
      if r.Err? {
        rows := before;
      }
    }

    /** The sealed day with the highest watermark, if any day is sealed. */
    method LastSealed() returns (last: Option<nat>)
      ensures last.Some? ==> SealedDay(View(), last.value) && IsLast(View(), last.value)
      ensures last.None? ==> forall day :: !SealedDay(View(), day)
    {
      var left := recons.Keys;
      last := None;
      while left != {}
        invariant left <= recons.Keys
        invariant last.Some? ==> SealedDay(View(), last.value)
        invariant forall day :: SealedDay(View(), day) && day !in left ==>
          last.Some? && recons[day].figures.throughSeq <= recons[last.value].figures.throughSeq
        decreases |left|
      {
        var day :| day in left;
        left := left - {day};
        if recons[day].sealed
           && (last.None? || recons[day].figures.throughSeq > recons[last.value].figures.throughSeq) {
          last := Some(day);
        }
      }
    }

    method FindAnchor() returns (a: Anchor)
      ensures IsAnchor(View(), a)
    {
      var last := LastSealed();
      if last.Some? {
        a := Anchor(recons[last.value].figures.closingPhysical, recons[last.value].figures.throughSeq);
      } else if HasOpening(View()) {
        var m :| m in rows && GenuineOpening(m);
        a := Anchor(m.litres, m.num);
      } else {
        a := Anchor(0, 0);
      }
    }

    method PersistDraft(day: nat, physical: int, tolerance: real) returns (r: Result<Figures, Error>, a: Anchor)
      modifies this
      ensures IsAnchor(old(View()), a)
      ensures View() == Outcome(old(View()), SaveDraft(old(View()), day, Compute(old(rows), a, physical, tolerance)))
      ensures r == if SealedDay(old(View()), day) then Err(AlreadySealed)
          else Ok(Compute(old(rows), a, physical, tolerance))
    {
      a := FindAnchor();
      var f := Compute(rows, a, physical, tolerance);
      if day in recons && recons[day].sealed {
        return Err(AlreadySealed), a;
      }
      recons := recons[day := Recon(false, f)];
      r := Ok(f);
    }

    method PostWriteOff(litres: int)
      modifies this`rows, this`nextSeq
      ensures View() == Append(old(View()), Adjustment, Reconciliation, litres)
    {
      rows := rows + [Movement(nextSeq, Adjustment, Reconciliation, litres, false)];
      nextSeq := nextSeq + 1;
    }

    method Freeze(day: nat, f: Figures)
      modifies this`recons
      ensures recons == old(recons)[day := Recon(true, f)]
    {
      recons := recons[day := Recon(true, f)];
    }

    /** Posts the residual, reads the watermark after it, and freezes the figures. */
    method SealDay(day: nat, physical: int, tolerance: real) returns (r: Result<Figures, Error>, a: Anchor)
      modifies this
      ensures IsAnchor(old(View()), a)
      ensures View() == Outcome(old(View()), Seal(old(View()), day, a, physical, tolerance))
      ensures r.Ok? <==> Seal(old(View()), day, a, physical, tolerance).Ok?
      ensures r.Ok? ==> day in recons && recons[day] == Recon(true, r.value)
      ensures r.Err? ==> r.error == Seal(old(View()), day, a, physical, tolerance).error
    {
      a := FindAnchor();
      if day !in recons {
        return Err(DraftNotFound), a;
      }
      if recons[day].sealed {
        return Err(AlreadySealed), a;
      }
      var f := Compute(rows, a, physical, tolerance);
      if !WithinTolerance(f) {
        return Err(OverTolerance), a;
      }
      if WriteOff(f) != 0 {
        PostWriteOff(WriteOff(f));
      }
      f := f.(throughSeq := MaxNum(rows));
      Freeze(day, f);
      r := Ok(f);
    }
  }
}
