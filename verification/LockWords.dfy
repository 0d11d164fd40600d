/** The holders of one page packed in a 32-bit word, two bits for each owner. */
module LockWords {
  import opened LockRules

  /** owner_id * 2, as a shift distance. */
  function Shift(o: Owner): bv32 { [0, 2, 4, 6, 8, 10, 12, 14, 16, 18, 20, 22, 24, 26, 28, 30][o] }

  function Bits(t: LockType): bv32 { if t == 0 then 0 else if t == 1 then 1 else if t == 2 then 2 else 3 }

  function FromBits(b: bv32): LockType { if b == 0 then 0 else if b == 1 then 1 else if b == 2 then 2 else 3 }

  function Field(word: bv32, shift: bv32): bv32
    requires shift < 32
  {
    (word >> shift) & 3
  }

  function SetField(word: bv32, shift: bv32, b: bv32): bv32
    requires shift < 32
  {
    (word & !(3 << shift)) | ((3 & b) << shift)
  }

  /** get_owner_lock_type */
  function LockOf(word: bv32, o: Owner): LockType { FromBits(Field(word, Shift(o))) }

  /** set_owner_lock_type */
  function WithLock(word: bv32, o: Owner, t: LockType): bv32 { SetField(word, Shift(o), Bits(t)) }

  /** Everything one word says. */
  function Unpack(word: bv32): Holders { seq(NUM_OWNERS, o requires 0 <= o < NUM_OWNERS => LockOf(word, o)) }

  predicate IsShift(s: bv32) { s < 32 && s & 1 == 0 }

  lemma ShiftsAreApart(o: Owner, p: Owner)
    ensures IsShift(Shift(o)) && (o != p ==> Shift(o) != Shift(p))
  {
  }

  lemma SetThenGet(word: bv32, s: bv32, b: bv32)
    requires IsShift(s) && b < 4
    ensures Field(SetField(word, s, b), s) == b
  {
  }

  lemma SetLeavesOthers(word: bv32, s: bv32, b: bv32, r: bv32)
    requires IsShift(s) && IsShift(r) && r != s
    ensures Field(SetField(word, s, b), r) == Field(word, r)
  {
  }

  lemma BitsAndBack(t: LockType)
    ensures Bits(t) < 4 && FromBits(Bits(t)) == t
  {
  }

  lemma LockAfterSet(word: bv32, o: Owner, t: LockType, p: Owner)
    ensures LockOf(WithLock(word, o, t), p) == if p == o then t else LockOf(word, p)
  {
    ShiftsAreApart(o, p);
    BitsAndBack(t);
    if p == o {
      SetThenGet(word, Shift(o), Bits(t));
    } else {
      SetLeavesOthers(word, Shift(o), Bits(t), Shift(p));
    }
  }

  /** Setting one field changes what one owner holds. */
  lemma UnpackAfterSet(word: bv32, o: Owner, t: LockType)
    ensures Unpack(WithLock(word, o, t)) == Unpack(word)[o := t]
  {
    var after := WithLock(word, o, t);
    forall p: Owner ensures Unpack(after)[p] == Unpack(word)[o := t][p] {
      LockAfterSet(word, o, t, p);
    }
  }

  /** A word is zero exactly when nobody holds the page. */
  lemma ZeroMeansNobody(word: bv32)
    ensures word == 0 <==> Unpack(word) == Nobody()
  {
    if word == 0 {
      forall p: Owner ensures LockOf(0, p) == NULL_LOCK {
        ShiftsAreApart(p, p);
        FieldOfZero(Shift(p));
      }
    } else if Unpack(word) == Nobody() {
      forall p: Owner ensures Field(word, Shift(p)) == 0 {
        ShiftsAreApart(p, p);
        assert Unpack(word)[p] == NULL_LOCK;
        FieldIsSmall(word, Shift(p));
      }
      assert Shift(0) == 0 && Shift(1) == 2 && Shift(2) == 4 && Shift(3) == 6 && Shift(4) == 8 && Shift(5) == 10;
      assert Shift(6) == 12 && Shift(7) == 14 && Shift(8) == 16 && Shift(9) == 18 && Shift(10) == 20 && Shift(11) == 22;
      assert Shift(12) == 24 && Shift(13) == 26 && Shift(14) == 28 && Shift(15) == 30;
      AllFieldsZero(word);
    }
  }

  lemma FieldOfZero(s: bv32)
    requires IsShift(s)
    ensures Field(0, s) == 0
  {
  }

  lemma FieldIsSmall(word: bv32, s: bv32)
    requires IsShift(s)
    ensures Field(word, s) < 4
  {
  }

  lemma AllFieldsZero(word: bv32)
    requires Field(word, 0) == 0 && Field(word, 2) == 0 && Field(word, 4) == 0 && Field(word, 6) == 0
    requires Field(word, 8) == 0 && Field(word, 10) == 0 && Field(word, 12) == 0 && Field(word, 14) == 0
    requires Field(word, 16) == 0 && Field(word, 18) == 0 && Field(word, 20) == 0 && Field(word, 22) == 0
    requires Field(word, 24) == 0 && Field(word, 26) == 0 && Field(word, 28) == 0 && Field(word, 30) == 0
    ensures word == 0
  {
  }
}
