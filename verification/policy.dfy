/**
 * The tier selection of `main`: leave a document at or under the target
 * size alone; otherwise run the aggressive tier when asked to or when the
 * document is over 250 MB, the standard tier when not; then run the
 * aggressive tier once more if the result is still over the target.
 *
 * The size of a document is what `get_size_mb` measures: the number of bytes
 * of its compact JSON text, divided by 1024 * 1024. Serialising is not part
 * of this model, so the byte count is a function supplied by the caller.
 * Dividing by a power of two is exact in floating point while the byte count
 * is below 2^53, so the comparisons below are then exact statements about
 * that byte count.
 */
module Policy {
  import opened Json
  import Tiers

  const MiB: nat := 1024 * 1024

  /** A byte count of a serialised document: compact JSON text is never
      empty, so the size `main` divides by is never zero. */
  type ByteCount = n: nat | 0 < n witness 1

  /** Above this many megabytes the aggressive tier runs even when not asked for. */
  const HugeMb: nat := 250

  /** `get_size_mb` of a document of `bytes` bytes. */
  function SizeMb(bytes: nat): real {
    bytes as real / MiB as real
  }

  datatype Tier = StandardTier | AggressiveTier

  /** What `main` does first. */
  datatype Plan = Keep | FirstPass(tier: Tier)

  /** The first decision, in whole bytes. */
  function ChoosePlan(bytes: nat, targetMb: int, aggressive: bool): (p: Plan)
    ensures p == Keep <==> SizeMb(bytes) <= targetMb as real
    ensures p == FirstPass(AggressiveTier) <==>
      SizeMb(bytes) > targetMb as real && (aggressive || SizeMb(bytes) > HugeMb as real)
    ensures p == FirstPass(StandardTier) <==>
      SizeMb(bytes) > targetMb as real && !aggressive && SizeMb(bytes) <= HugeMb as real
  {
    if bytes <= targetMb * MiB then Keep
    else if aggressive || bytes > HugeMb * MiB then FirstPass(AggressiveTier)
    else FirstPass(StandardTier)
  }

  /** The second decision: is the compressed document still over the target? */
  function NeedsSecondPass(bytes: nat, targetMb: int): (b: bool)
    ensures b <==> SizeMb(bytes) > targetMb as real
  {
    bytes > targetMb * MiB
  }

  /** Lines 192-213 of `main` as a value: the document that is written out,
      or `Raised`. */
  function Run(data: Value, targetMb: int, aggressive: bool, size: Value -> ByteCount): (r: Outcome<Value>)
    requires Tiers.TokensComparable(data)
    ensures SizeMb(size(data)) <= targetMb as real ==> r == Ok(data)
  {
    match ChoosePlan(size(data), targetMb, aggressive)
    case Keep => Ok(data)
    case FirstPass(AggressiveTier) =>
      var first :- Tiers.Aggressive(data);
      Tiers.AggressiveKeepsComparable(data);
      SecondPass(first, targetMb, size)
    case FirstPass(StandardTier) =>
      var first :- Tiers.Standard(data);
      Tiers.StandardKeepsComparable(data);
      SecondPass(first, targetMb, size)
  }

  /** The check after the first pass: one more aggressive run while the
      document is still over the target. */
  function SecondPass(first: Value, targetMb: int, size: Value -> ByteCount): (r: Outcome<Value>)
    requires Tiers.TokensComparable(first)
  {
    if NeedsSecondPass(size(first), targetMb) then Tiers.Aggressive(first) else Ok(first)
  }

  /** Which tier runs first, and when the second, aggressive, pass runs: exactly
      when the output of the first pass is still over the target. */
  lemma RunOverTarget(data: Value, targetMb: int, aggressive: bool, size: Value -> ByteCount)
    requires Tiers.TokensComparable(data)
    requires SizeMb(size(data)) > targetMb as real
    ensures var first := if aggressive || SizeMb(size(data)) > HugeMb as real then Tiers.Aggressive(data) else Tiers.Standard(data);
      && (first.Raised? ==> Run(data, targetMb, aggressive, size) == Raised)
      && (first.Ok? && SizeMb(size(first.value)) <= targetMb as real ==> Run(data, targetMb, aggressive, size) == first)
      && (first.Ok? && SizeMb(size(first.value)) > targetMb as real ==>
            Tiers.TokensComparable(first.value) && Run(data, targetMb, aggressive, size) == Tiers.Aggressive(first.value))
  {
    var plan := ChoosePlan(size(data), targetMb, aggressive);
    if aggressive || SizeMb(size(data)) > HugeMb as real {
      assert plan == FirstPass(AggressiveTier);
      if Tiers.Aggressive(data).Ok? {
        Tiers.AggressiveKeepsComparable(data);
        assert Run(data, targetMb, aggressive, size) == SecondPass(Tiers.Aggressive(data).value, targetMb, size);
      }
    } else {
      assert plan == FirstPass(StandardTier);
      if Tiers.Standard(data).Ok? {
        Tiers.StandardKeepsComparable(data);
        assert Run(data, targetMb, aggressive, size) == SecondPass(Tiers.Standard(data).value, targetMb, size);
      }
    }
  }

  /** A document written out over the target has been through the aggressive
      tier last. */
  lemma OverTargetMeansAggressive(data: Value, targetMb: int, aggressive: bool, size: Value -> ByteCount)
    requires Tiers.TokensComparable(data)
    requires Run(data, targetMb, aggressive, size).Ok?
    requires SizeMb(size(Run(data, targetMb, aggressive, size).value)) > targetMb as real
    ensures exists x :: Tiers.TokensComparable(x) && Tiers.Aggressive(x) == Run(data, targetMb, aggressive, size)
  {
    var out := Run(data, targetMb, aggressive, size);
    RunOverTarget(data, targetMb, aggressive, size);
    var first := if aggressive || SizeMb(size(data)) > HugeMb as real then Tiers.Aggressive(data) else Tiers.Standard(data);
    assert SizeMb(size(first.value)) > targetMb as real;
    assert Tiers.Aggressive(first.value) == out;
  }

  /** When the aggressive tier runs first, the second pass changes nothing:
      the result is that of one aggressive run, whatever the sizes (provided
      the first run did not keep colours that were out of order in their
      original order only because a colour beyond the cap was not a dict). */
  lemma RunAggressiveOnce(data: Value, targetMb: int, aggressive: bool, size: Value -> ByteCount)
    requires Tiers.TokensComparable(data) && Tiers.TokensFallbackStable(data)
    requires SizeMb(size(data)) > targetMb as real
    requires aggressive || SizeMb(size(data)) > HugeMb as real
    ensures Run(data, targetMb, aggressive, size) == Tiers.Aggressive(data)
  {
    RunOverTarget(data, targetMb, aggressive, size);
    if Tiers.Aggressive(data).Ok? {
      Tiers.AggressiveIdempotent(data);
    }
  }

  /** `main` from line 192 on, on the loaded document held by `payload`;
      `ok` is false when a tier raises, and then nothing is written. */
  method CompressToTarget(payload: Tiers.Payload, targetMb: int, aggressive: bool, size: Value -> ByteCount)
    returns (ok: bool)
    requires Tiers.TokensComparable(payload.data)
    modifies payload
    ensures ok <==> Run(old(payload.data), targetMb, aggressive, size).Ok?
    ensures ok ==> payload.data == Run(old(payload.data), targetMb, aggressive, size).value
  {
    ghost var data := payload.data;
    var plan := ChoosePlan(size(payload.data), targetMb, aggressive);
    if plan == Keep {
      return true;
    }
    if plan.tier == AggressiveTier {
      ok := payload.CompressAggressive();
      if ok {
        Tiers.AggressiveKeepsComparable(data);
      }
    } else {
      ok := payload.CompressStandard();
      if ok {
        Tiers.StandardKeepsComparable(data);
      }
    }
    if !ok {
      return;
    }
    if NeedsSecondPass(size(payload.data), targetMb) {
      ok := payload.CompressAggressive();
    }
  }
}
