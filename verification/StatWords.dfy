/** The STAT word of a data frame, as the sender packs it and as the receiver unpacks it. */
module StatWords {
  import opened BitOps
  import opened FrameWords
  import opened Wrappers

  /** The names of the codes are looked up before packing; numbers are packed as they are, in range or not. */
  datatype StatFields = StatFields(status: nat, sync: bool, byArrival: bool, trigger: bool, cfgChange: bool,
                                   modified: bool, timeQuality: nat, unlocked: nat, reason: nat)

  /** The part of the word above the time quality: the status lands one bit too high. */
  function Head(s: StatFields): nat {
    var w := Or(Shl(s.status, 2), Low(!s.sync));
    var w := Or(Shl(w, 1), Low(s.byArrival));
    var w := Or(Shl(w, 1), Low(s.trigger));
    var w := Or(Shl(w, 1), Low(s.cfgChange));
    Or(Shl(w, 1), Low(s.modified))
  }

  /** _stat2int, shift by shift; bits of a field that is too large end up in the fields above it. */
  function StatWord(s: StatFields): nat {
    Or(Shl(Or(Shl(Or(Shl(Head(s), 3), s.timeQuality), 2), s.unlocked), 4), s.reason)
  }

  /** The fields of a word, given its part above the time quality and the codes below. */
  function FromHead(head: nat, timeQuality: nat, unlocked: nat, reason: nat): StatFields {
    var w10 := Rest(head, 2);
    var w11 := Rest(w10, 2);
    var w12 := Rest(w11, 2);
    var w13 := Rest(w12, 2);
    var w14 := Rest(w13, 2);
    StatFields(Digit(w14, 4), Digit(w13, 2) == 1, Digit(w12, 2) == 1, Digit(w11, 2) == 1, Digit(w10, 2) == 1,
               Digit(head, 2) == 1, timeQuality, unlocked, reason)
  }

  /** _int2stat: trigger reasons above 8 have no name. */
  function GetStat(w: nat): Option<StatFields> {
    var w4 := Rest(w, 16);
    var w6 := Rest(w4, 4);
    if Digit(w, 16) > 8 then None
    else Some(FromHead(Rest(w6, 8), Digit(w6, 8), Digit(w4, 4), Digit(w, 16)))
  }

  /** STAT is given by its fields or as a number. */
  datatype StatInput = Fields(stat: StatFields) | Raw(word: int)

  function SetStat(i: StatInput): Option<nat> {
    match i
    case Fields(s) => Some(StatWord(s))
    case Raw(w) => if 0 <= w <= 65536 then Some(w) else None
  }

  /** What the receiver stores for a STAT word it has read. */
  function Restat(w: nat): nat
    requires GetStat(w).Some?
  {
    StatWord(GetStat(w).value)
  }

  lemma OrField1(a: nat, b: bool)
    ensures Or(Shl(a, 1), Low(b)) == Push(a, 2, Low(b))
  {
    OrIsSum(a, 1, Low(b));
    assert Shl(a, 1) == 2 * Shl(a, 0);
  }

  lemma OrField2(a: nat, b: nat)
    ensures Or(Shl(a, 2), b) == Push(Or(a, Rest(b, 4)), 4, Digit(b, 4))
  {
    OrShifted(a, 2, b);
    var x := Or(a, b / 4);
    assert Shr(b, 2) == Shr(b / 2, 1) == Shr(b / 2 / 2, 0) == b / 4;
    assert Lowest(b, 2) == 2 * Lowest(b / 2, 1) + b % 2 && Lowest(b / 2, 1) == 2 * Lowest(b / 4, 0) + b / 2 % 2;
    assert Shl(x, 2) == 2 * Shl(x, 1) && Shl(x, 1) == 2 * Shl(x, 0);
  }

  lemma OrField3(a: nat, b: nat)
    ensures Or(Shl(a, 3), b) == Push(Or(a, Rest(b, 8)), 8, Digit(b, 8))
  {
    OrField2(a, b / 2);
    OrHalves(Shl(a, 3), b);
    assert Shl(a, 3) == 2 * Shl(a, 2);
  }

  lemma OrField4(a: nat, b: nat)
    ensures Or(Shl(a, 4), b) == Push(Or(a, Rest(b, 16)), 16, Digit(b, 16))
  {
    OrField3(a, b / 2);
    OrHalves(Shl(a, 4), b);
    assert Shl(a, 4) == 2 * Shl(a, 3);
  }

  /** The unlocked time and the time quality with the bits that spill into them from below. */
  function Unlocked(s: StatFields): nat {
    Or(s.unlocked, Rest(s.reason, 16))
  }

  function Quality(s: StatFields): nat {
    Or(s.timeQuality, Rest(Unlocked(s), 4))
  }

  lemma StatWordIs(s: StatFields)
    ensures var w9 := Or(Head(s), Rest(Quality(s), 8));
      StatWord(s) == Push(Push(Push(w9, 8, Digit(Quality(s), 8)), 4, Digit(Unlocked(s), 4)), 16, Digit(s.reason, 16))
  {
    hide Or, Shl, Head, Push, Rest, Digit;
    var h := Head(s);
    var w6 := Or(Shl(h, 3), s.timeQuality);
    OrField4(Or(Shl(w6, 2), s.unlocked), s.reason);
    OrAssociates(Shl(w6, 2), s.unlocked, Rest(s.reason, 16));
    OrField2(w6, Unlocked(s));
    OrAssociates(Shl(h, 3), s.timeQuality, Rest(Unlocked(s), 4));
    OrField3(h, Quality(s));
  }

  /** Reading a word that was written, whatever the fields: spilled bits are read in the fields above. */
  lemma StatReads(s: StatFields)
    ensures GetStat(StatWord(s)) ==
      if Digit(s.reason, 16) > 8 then None
      else Some(FromHead(Or(Head(s), Rest(Quality(s), 8)), Digit(Quality(s), 8), Digit(Unlocked(s), 4),
                         Digit(s.reason, 16)))
  {
    hide FromHead, Head, StatWord, Or, Unlocked, Quality, Push, Rest, Digit;
    StatWordIs(s);
    var w9 := Or(Head(s), Rest(Quality(s), 8));
    var w6 := Push(w9, 8, Digit(Quality(s), 8));
    var w4 := Push(w6, 4, Digit(Unlocked(s), 4));
    Popped(w4, 16, Digit(s.reason, 16));
    Popped(w6, 4, Digit(Unlocked(s), 4));
    Popped(w9, 8, Digit(Quality(s), 8));
  }

  predicate InRange(s: StatFields) {
    s.timeQuality < 8 && s.unlocked < 4 && s.reason < 16
  }

  lemma HeadIs(s: StatFields)
    ensures var w13 := Push(s.status, 4, Low(!s.sync));
      Head(s) == Push(Push(Push(Push(w13, 2, Low(s.byArrival)), 2, Low(s.trigger)), 2, Low(s.cfgChange)), 2,
                      Low(s.modified))
  {
    OrField2(s.status, Low(!s.sync));
    OrZero(s.status);
    assert Rest(Low(!s.sync), 4) == 0 && Digit(Low(!s.sync), 4) == Low(!s.sync);
    hide Or, Shl, Push;
    var w13 := Push(s.status, 4, Low(!s.sync));
    var w12 := Push(w13, 2, Low(s.byArrival));
    var w11 := Push(w12, 2, Low(s.trigger));
    OrField1(w13, s.byArrival);
    OrField1(w12, s.trigger);
    OrField1(w11, s.cfgChange);
    OrField1(Push(w11, 2, Low(s.cfgChange)), s.modified);
  }

  lemma HeadReads(s: StatFields)
    ensures FromHead(Head(s), s.timeQuality, s.unlocked, s.reason)
      == s.(status := Digit(2 * s.status, 4), sync := !s.sync)
  {
    hide Head, Push, Rest, Digit;
    var w13 := Push(s.status, 4, Low(!s.sync));
    var w12 := Push(w13, 2, Low(s.byArrival));
    var w11 := Push(w12, 2, Low(s.trigger));
    var w10 := Push(w11, 2, Low(s.cfgChange));
    HeadIs(s);
    Popped(w10, 2, Low(s.modified));
    Popped(w11, 2, Low(s.cfgChange));
    Popped(w12, 2, Low(s.trigger));
    Popped(w13, 2, Low(s.byArrival));
    StatusPlace(s.status, Low(!s.sync));
  }

  lemma StatusPlace(status: nat, low: nat)
    requires low < 2
    ensures Rest(Push(status, 4, low), 2) == 2 * status && Digit(Push(status, 4, low), 2) == low
  {
  }

  /** Fields in range: sync comes out inverted, the status shifted by one bit, everything else as it was put in. */
  lemma FieldsRead(s: StatFields)
    requires InRange(s)
    ensures GetStat(StatWord(s))
      == if s.reason > 8 then None else Some(s.(status := Digit(2 * s.status, 4), sync := !s.sync))
  {
    assert Rest(s.reason, 16) == 0 && Digit(s.reason, 16) == s.reason;
    assert Rest(s.unlocked, 4) == 0 && Digit(s.unlocked, 4) == s.unlocked;
    assert Rest(s.timeQuality, 8) == 0 && Digit(s.timeQuality, 8) == s.timeQuality;
    hide GetStat, StatWord, FromHead, Head, Digit, Rest, Or;
    StatReads(s);
    HeadReads(s);
    OrZero(s.unlocked);
    OrZero(s.timeQuality);
    OrZero(Head(s));
  }

  /** The weight of every field in the word: bit 13 is set when out of sync, and the status stands one bit too high. */
  lemma StatBits(s: StatFields)
    requires InRange(s)
    ensures StatWord(s) ==
      s.reason + 16 * s.unlocked + 64 * s.timeQuality + (if s.modified then 512 else 0)
      + (if s.cfgChange then 1024 else 0) + (if s.trigger then 2048 else 0) + (if s.byArrival then 4096 else 0)
      + (if s.sync then 0 else 8192) + 32768 * s.status
  {
    assert Rest(s.reason, 16) == 0 && Digit(s.reason, 16) == s.reason;
    assert Rest(s.unlocked, 4) == 0 && Digit(s.unlocked, 4) == s.unlocked;
    assert Rest(s.timeQuality, 8) == 0 && Digit(s.timeQuality, 8) == s.timeQuality;
    hide StatWord, Head, Digit, Rest, Or;
    StatWordIs(s);
    OrZero(s.unlocked);
    OrZero(s.timeQuality);
    OrZero(Head(s));
    HeadIs(s);
  }

  lemma GottenInRange(w: nat)
    ensures GetStat(w).Some? ==> InRange(GetStat(w).value) && GetStat(w).value.reason <= 8
  {
  }

  /** The receiver stores a different word than it was sent, always: the sync bit is inverted. */
  lemma StatWordNeverSurvives(w: nat)
    requires GetStat(w).Some?
    ensures Restat(w) != w
  {
    var s := GetStat(w).value;
    GottenInRange(w);
    hide GetStat, StatWord;
    FieldsRead(s);
  }

  lemma StatusTwice(status: nat)
    ensures Digit(2 * Digit(2 * status, 4), 4) == 0
  {
  }

  /** What survives the way to the receiver: good status, no field too large, a reason that has a name. */
  predicate Good(s: StatFields) {
    InRange(s) && s.status == 0 && s.reason <= 8
  }

  /** What the receiver reports is what the sender put in, exactly in that case. */
  lemma StatReported(s: StatFields)
    ensures GetStat(StatWord(s)).Some? && GetStat(Restat(StatWord(s))) == Some(s) <==> Good(s)
  {
    if GetStat(StatWord(s)).Some? {
      GottenInRange(Restat(StatWord(s)));
    }
    hide GetStat, StatWord, Digit;
    if InRange(s) {
      FieldsRead(s);
      if s.reason <= 8 {
        FieldsRead(GetStat(StatWord(s)).value);
        StatusTwice(s.status);
      }
    }
  }

  lemma HeadFits(s: StatFields)
    ensures Head(s) < 128 <==> s.status <= 1
  {
    HeadIs(s);
    hide Head;
  }

  /**
   The word fits its 16 bits exactly when no field reaches beyond them: two of the four statuses
   cannot be sent at all.
   */
  lemma StatFits(s: StatFields)
    ensures StatWord(s) < 65536 <==> s.status <= 1 && s.timeQuality < 1024 && s.unlocked < 4096 && s.reason < 65536
  {
    hide Or, Shl, Head, Pow2;
    Powers();
    var w6 := Or(Shl(Head(s), 3), s.timeQuality);
    var w4 := Or(Shl(w6, 2), s.unlocked);
    OrFits(Shl(w4, 4), s.reason, 16);
    ShlFits(w4, 4, 12);
    OrFits(Shl(w6, 2), s.unlocked, 12);
    ShlFits(w6, 2, 10);
    OrFits(Shl(Head(s), 3), s.timeQuality, 10);
    ShlFits(Head(s), 3, 7);
    HeadFits(s);
  }
}
