/** The gateway's `generateId`: five random decimal digits, each in 1..9.
    `Math.random` is replaced by its only use here, the integer
    `Math.floor(Math.random() * 9)`, supplied as an input draw. Nothing checks
    the result against ids already in flight. */
module CorrelationId {

  import opened Format

  const IdLength: nat := 5

  /** One `Math.floor(Math.random() * 9)`: `Math.random()` lies in [0, 1), so
      the draw is an integer in 0..8. */
  type Draw = d: int | 0 <= d < 9

  /** The draws one call of `generateId` consumes, one per loop iteration. */
  type Draws = ds: seq<Draw> | |ds| == IdLength witness [0, 0, 0, 0, 0]

  /** A character `generateId` can emit. */
  predicate IdChar(c: char) {
    '1' <= c <= '9'
  }

  /** The string the loop of `generateId` has built after the draws `ds`:
      each iteration runs `id += draw + 1`, appending that number's decimal
      form. */
  function AppendDraws(ds: seq<Draw>): (cid: string)
    ensures |cid| == |ds|
    ensures forall i :: 0 <= i < |ds| ==> IdChar(cid[i]) && DigitValue(cid[i]) == ds[i] as int + 1
  {
    if ds == [] then ""
    else
      var prev := AppendDraws(ds[..|ds| - 1]);
      var digit := NatToString(ds[|ds| - 1] as int + 1);
      assert digit[..0] == [];
      prev + digit
  }

  /** `generateId`: exactly five characters, each of `1`..`9`, so `0` never
      appears. */
  function GenerateId(draws: Draws): (cid: string)
    ensures |cid| == IdLength
    ensures forall i :: 0 <= i < |cid| ==> IdChar(cid[i])
    ensures '0' !in cid
  {
    AppendDraws(draws)
  }

  /** A well-formed correlation id as `generateId` produces them. */
  predicate WellFormedId(cid: string) {
    |cid| == IdLength && forall i :: 0 <= i < |cid| ==> IdChar(cid[i])
  }

  /** Recovers the draws behind a well-formed id. */
  function DrawsOf(cid: string): (ds: Draws)
    requires WellFormedId(cid)
  {
    seq(|cid|, i requires 0 <= i < |cid| => DigitValue(cid[i]) - 1)
  }

  /** Distinct draws give distinct ids: the id determines the draws. */
  lemma IdDeterminesDraws(draws: Draws)
    ensures WellFormedId(GenerateId(draws))
    ensures DrawsOf(GenerateId(draws)) == draws
  {
  }

  /** Every five-digit string over `1`..`9` is a possible id, so the id space
      has exactly 9^5 members and collisions between concurrent calls are
      possible. */
  lemma EveryWellFormedIdIsDrawn(cid: string)
    requires WellFormedId(cid)
    ensures GenerateId(DrawsOf(cid)) == cid
  {
    var g := GenerateId(DrawsOf(cid));
    forall i | 0 <= i < |cid|
      ensures g[i] == cid[i]
    {
      assert DigitValue(g[i]) == DigitValue(cid[i]);
      assert DigitChar(DigitValue(g[i])) == g[i];
    }
  }

  lemma GenerateIdInjective(d1: Draws, d2: Draws)
    requires GenerateId(d1) == GenerateId(d2)
    ensures d1 == d2
  {
    IdDeterminesDraws(d1);
    IdDeterminesDraws(d2);
  }

}
