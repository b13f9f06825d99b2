/** The note table of src/bin/playsample.rs (and the identical one of
    src/lib.rs): the three octaves a ProTracker module can play, each note
    standing for its Amiga period. A shorter period is a higher pitch. */
module Notes {

  /** `C1` to `B3` in declaration order; `CS1` is C sharp in octave 1. */
  datatype Note =
    | C1 | CS1 | D1 | DS1 | E1 | F1 | FS1 | G1 | GS1 | A1 | AS1 | B1
    | C2 | CS2 | D2 | DS2 | E2 | F2 | FS2 | G2 | GS2 | A2 | AS2 | B2
    | C3 | CS3 | D3 | DS3 | E3 | F3 | FS3 | G3 | GS3 | A3 | AS3 | B3
  {
    /** The note's position in the declaration order, 0 for `C1`. */
    function Index(): (i: nat)
      ensures i < 36
    {
      match this
      case C1 => 0
      case CS1 => 1
      case D1 => 2
      case DS1 => 3
      case E1 => 4
      case F1 => 5
      case FS1 => 6
      case G1 => 7
      case GS1 => 8
      case A1 => 9
      case AS1 => 10
      case B1 => 11
      case C2 => 12
      case CS2 => 13
      case D2 => 14
      case DS2 => 15
      case E2 => 16
      case F2 => 17
      case FS2 => 18
      case G2 => 19
      case GS2 => 20
      case A2 => 21
      case AS2 => 22
      case B2 => 23
      case C3 => 24
      case CS3 => 25
      case D3 => 26
      case DS3 => 27
      case E3 => 28
      case F3 => 29
      case FS3 => 30
      case G3 => 31
      case GS3 => 32
      case A3 => 33
      case AS3 => 34
      case B3 => 35
    }

    /** `period as u16`: the discriminant of the note. */
    function Period(): (p: nat)
      ensures 113 <= p <= 856
    {
      match this
      case C1 => 856
      case CS1 => 808
      case D1 => 762
      case DS1 => 720
      case E1 => 678
      case F1 => 640
      case FS1 => 604
      case G1 => 570
      case GS1 => 538
      case A1 => 508
      case AS1 => 480
      case B1 => 453
      case C2 => 428
      case CS2 => 404
      case D2 => 381
      case DS2 => 360
      case E2 => 339
      case F2 => 320
      case FS2 => 302
      case G2 => 285
      case GS2 => 269
      case A2 => 254
      case AS2 => 240
      case B2 => 226
      case C3 => 214
      case CS3 => 202
      case D3 => 190
      case DS3 => 180
      case E3 => 170
      case F3 => 160
      case FS3 => 151
      case G3 => 143
      case GS3 => 135
      case A3 => 127
      case AS3 => 120
      case B3 => 113
    }

  }

  /** The note at a position of the declaration order. */
  function FromIndex(i: nat): Note
    requires i < 36
  {
    if i < 18 then
      if i < 9 then
        if i < 4 then
          if i < 2 then
            if i < 1 then
              C1
            else
              CS1
          else
            if i < 3 then
              D1
            else
              DS1
        else
          if i < 6 then
            if i < 5 then
              E1
            else
              F1
          else
            if i < 7 then
              FS1
            else
              if i < 8 then
                G1
              else
                GS1
      else
        if i < 13 then
          if i < 11 then
            if i < 10 then
              A1
            else
              AS1
          else
            if i < 12 then
              B1
            else
              C2
        else
          if i < 15 then
            if i < 14 then
              CS2
            else
              D2
          else
            if i < 16 then
              DS2
            else
              if i < 17 then
                E2
              else
                F2
    else
      if i < 27 then
        if i < 22 then
          if i < 20 then
            if i < 19 then
              FS2
            else
              G2
          else
            if i < 21 then
              GS2
            else
              A2
        else
          if i < 24 then
            if i < 23 then
              AS2
            else
              B2
          else
            if i < 25 then
              C3
            else
              if i < 26 then
                CS3
              else
                D3
      else
        if i < 31 then
          if i < 29 then
            if i < 28 then
              DS3
            else
              E3
          else
            if i < 30 then
              F3
            else
              FS3
        else
          if i < 33 then
            if i < 32 then
              G3
            else
              GS3
          else
            if i < 34 then
              A3
            else
              if i < 35 then
                AS3
              else
                B3
  }

  /** Positions name notes one to one: a note is found again from its
      position. */
  lemma FromIndexOfIndex(n: Note)
    ensures FromIndex(n.Index()) == n
  {
    match n {
      case C1 =>
      case CS1 =>
      case D1 =>
      case DS1 =>
      case E1 =>
      case F1 =>
      case FS1 =>
      case G1 =>
      case GS1 =>
      case A1 =>
      case AS1 =>
      case B1 =>
      case C2 =>
      case CS2 =>
      case D2 =>
      case DS2 =>
      case E2 =>
      case F2 =>
      case FS2 =>
      case G2 =>
      case GS2 =>
      case A2 =>
      case AS2 =>
      case B2 =>
      case C3 =>
      case CS3 =>
      case D3 =>
      case DS3 =>
      case E3 =>
      case F3 =>
      case FS3 =>
      case G3 =>
      case GS3 =>
      case A3 =>
      case AS3 =>
      case B3 =>
    }
  }

  /** Neighbours in declaration order: each note's period is larger than
      the next one's. */
  lemma NextPeriodSmaller(n: Note)
    requires n.Index() + 1 < 36
    ensures FromIndex(n.Index() + 1).Index() == n.Index() + 1
    ensures n.Period() > FromIndex(n.Index() + 1).Period()
  {
    if n.Index() < 12 {
      NextPeriodSmallerFrom0(n);
    } else if n.Index() < 24 {
      NextPeriodSmallerFrom12(n);
    } else {
      NextPeriodSmallerFrom24(n);
    }
  }

  /** `NextPeriodSmaller` for positions 0 to 11. */
  lemma NextPeriodSmallerFrom0(n: Note)
    requires 0 <= n.Index() < 12
    ensures FromIndex(n.Index() + 1).Index() == n.Index() + 1
    ensures n.Period() > FromIndex(n.Index() + 1).Period()
  {
    match n {
      case C1 =>
      case CS1 =>
      case D1 =>
      case DS1 =>
      case E1 =>
      case F1 =>
      case FS1 =>
      case G1 =>
      case GS1 =>
      case A1 =>
      case AS1 =>
      case B1 =>
      case _ =>
    }
  }

  /** `NextPeriodSmaller` for positions 12 to 23. */
  lemma NextPeriodSmallerFrom12(n: Note)
    requires 12 <= n.Index() < 24
    ensures FromIndex(n.Index() + 1).Index() == n.Index() + 1
    ensures n.Period() > FromIndex(n.Index() + 1).Period()
  {
    match n {
      case C2 =>
      case CS2 =>
      case D2 =>
      case DS2 =>
      case E2 =>
      case F2 =>
      case FS2 =>
      case G2 =>
      case GS2 =>
      case A2 =>
      case AS2 =>
      case B2 =>
      case _ =>
    }
  }

  /** `NextPeriodSmaller` for positions 24 to 34. */
  lemma NextPeriodSmallerFrom24(n: Note)
    requires 24 <= n.Index() < 35
    ensures FromIndex(n.Index() + 1).Index() == n.Index() + 1
    ensures n.Period() > FromIndex(n.Index() + 1).Period()
  {
    match n {
      case C3 =>
      case CS3 =>
      case D3 =>
      case DS3 =>
      case E3 =>
      case F3 =>
      case FS3 =>
      case G3 =>
      case GS3 =>
      case A3 =>
      case AS3 =>
      case _ =>
    }
  }

  /** The periods strictly decrease in declaration order, from 856 for
      `C1` to 113 for `B3`: a later note is always a higher pitch. */
  lemma {:induction false} PeriodsDecrease(a: Note, b: Note)
    requires a.Index() < b.Index()
    ensures a.Period() > b.Period()
    decreases b.Index() - a.Index()
  {
    var next := FromIndex(a.Index() + 1);
    NextPeriodSmaller(a);
    if next.Index() < b.Index() {
      PeriodsDecrease(next, b);
    } else {
      FromIndexOfIndex(b);
    }
  }

  /** The ends of the table, which hold its largest and smallest period. */
  lemma TableEnds(n: Note)
    ensures C1.Period() == 856 && B3.Period() == 113
    ensures n != C1 ==> n.Period() < 856
    ensures n != B3 ==> n.Period() > 113
  {
    if n != C1 {
      FromIndexOfIndex(n);
      PeriodsDecrease(C1, n);
    }
    if n != B3 {
      FromIndexOfIndex(n);
      PeriodsDecrease(n, B3);
    }
  }
}
