/** The packed TID word of `silo/include/tidword.hpp`: lock, latest and absent in the lowest bits, then 29 bits of TID
    and 32 bits of epoch. The protocol compares and stores whole words; this is why the model may compare the fields. */
module TidWordLayout {
  import opened DivMod
  import S = SiloModel

  const EPOCH_LIMIT: nat := 0x1_0000_0000

  const WORD_LIMIT: nat := 0x1_0000_0000_0000_0000

  predicate Fits(tw: S.TidWord) {
    tw.tid < S.TID_LIMIT && tw.epoch < EPOCH_LIMIT
  }

  function Bit(b: bool): nat {
    if b then 1 else 0
  }

  // A field of the given width below the rest of the word.
  function Above(rest: nat, width: nat, field: nat): nat {
    rest * width + field
  }

  function Pack(tw: S.TidWord): nat {
    var fields := Above(tw.epoch % EPOCH_LIMIT, S.TID_LIMIT, tw.tid % S.TID_LIMIT);
    Above(Above(Above(fields, 2, Bit(tw.absent)), 2, Bit(tw.latest)), 2, Bit(tw.lock))
  }

  function Unpack(obj: nat): S.TidWord {
    var fields := obj / 2 / 2 / 2;
    S.TidWord(obj % 2 == 1, obj / 2 % 2 == 1, obj / 2 / 2 % 2 == 1, fields % S.TID_LIMIT, fields / S.TID_LIMIT)
  }

  lemma Field(rest: nat, width: nat, field: nat)
    requires field < width
    ensures Above(rest, width, field) / width == rest && Above(rest, width, field) % width == field
  {
    DivUnique(Above(rest, width, field), width, rest, field);
  }

  // Packing loses nothing, exactly when the fields fit.
  lemma UnpackPack(tw: S.TidWord)
    ensures Unpack(Pack(tw)) == tw <==> Fits(tw)
  {
    var t, e := tw.tid % S.TID_LIMIT, tw.epoch % EPOCH_LIMIT;
    var fields := Above(e, S.TID_LIMIT, t);
    var absent := Above(fields, 2, Bit(tw.absent));
    var latest := Above(absent, 2, Bit(tw.latest));
    Field(e, S.TID_LIMIT, t);
    Field(fields, 2, Bit(tw.absent));
    Field(absent, 2, Bit(tw.latest));
    Field(latest, 2, Bit(tw.lock));
  }

  lemma Rejoin(n: nat, width: nat)
    requires width > 0
    ensures Above(n / width, width, n % width) == n
  {
  }

  lemma FieldsFit(obj: nat)
    requires obj < WORD_LIMIT
    ensures obj / 2 / 2 / 2 / S.TID_LIMIT < EPOCH_LIMIT
  {
  }

  lemma LowBit(n: nat)
    ensures Bit(n % 2 == 1) == n % 2
  {
  }

  lemma PackUnpack(obj: nat)
    requires obj < WORD_LIMIT
    ensures Fits(Unpack(obj)) && Pack(Unpack(obj)) == obj
  {
    var latest := obj / 2;
    var absent := latest / 2;
    var fields := absent / 2;
    FieldsFit(obj);
    LowBit(obj);
    LowBit(latest);
    LowBit(absent);
    Rejoin(obj, 2);
    Rejoin(latest, 2);
    Rejoin(absent, 2);
    Rejoin(fields, S.TID_LIMIT);
    assert Unpack(obj).epoch % EPOCH_LIMIT == fields / S.TID_LIMIT;
    assert Unpack(obj).tid % S.TID_LIMIT == fields % S.TID_LIMIT;
  }

  // Two words are the same 64 bits exactly when they agree in every field.
  lemma SameWord(a: S.TidWord, b: S.TidWord)
    requires Fits(a) && Fits(b)
    ensures Pack(a) == Pack(b) <==> a == b
  {
    UnpackPack(a);
    UnpackPack(b);
  }
}
