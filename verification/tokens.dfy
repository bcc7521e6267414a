/**
 * Design-token reduction (`compress_design_tokens`): the colours are put in
 * descending order of their `usage` count by a stable sort and cut to a cap;
 * the typography and spacing groups are cut to a prefix.
 */
module Tokens {
  import opened Json

  /** How many entries of each token group survive. */
  datatype Caps = Caps(colors: nat, typography: nat, spacing: nat)

  const StandardCaps := Caps(30, 20, 25)
  const AggressiveCaps := Caps(15, 10, 10)

  function CapsFor(aggressive: bool): Caps {
    if aggressive then AggressiveCaps else StandardCaps
  }

  /** The sort key `value.get('usage', 0)` of a colour that is a dict: a
      missing count is 0 and a boolean counts as 0 or 1. */
  function Usage(token: Value): int {
    if !token.Obj? then 0
    else match Lookup(token.fields, "usage")
      case Some(Int(n)) => n
      case Some(Bool(b)) => if b then 1 else 0
      case _ => 0
  }

  /** The `usage` of a colour, if it has one, is a number that sorts. */
  predicate ComparableUsage(token: Value) {
    token.Obj? ==>
      match Lookup(token.fields, "usage")
      case None => true
      case Some(u) => u.Int? || u.Bool?
  }

  predicate UsagesComparable(colors: seq<Field>) {
    forall i :: 0 <= i < |colors| ==> ComparableUsage(colors[i].1)
  }

  /** The colours of a token dict can be ordered by usage. */
  predicate ColorsComparable(tokens: Value) {
    tokens.Obj? ==>
      match Lookup(tokens.fields, "colors")
      case Some(Obj(colors)) => UsagesComparable(colors)
      case _ => true
  }

  /** Computing the sort key succeeds for every colour. */
  predicate AllDicts(entries: seq<Field>) {
    forall i :: 0 <= i < |entries| ==> entries[i].1.Obj?
  }

  predicate Descending(entries: seq<Field>) {
    forall i, j :: 0 <= i < j < |entries| ==> Usage(entries[i].1) >= Usage(entries[j].1)
  }

  /** The entries whose usage is `u`, in order. */
  function WithUsage(entries: seq<Field>, u: int): seq<Field> {
    if entries == [] then []
    else (if Usage(entries[0].1) == u then [entries[0]] else []) + WithUsage(entries[1..], u)
  }

  /** Puts `e` in front of the first entry whose usage is not greater. */
  function Insert(e: Field, sorted: seq<Field>): (r: seq<Field>)
    ensures |r| == |sorted| + 1
  {
    if sorted == [] || Usage(sorted[0].1) <= Usage(e.1) then [e] + sorted
    else [sorted[0]] + Insert(e, sorted[1..])
  }

  /** `items.sort(key=usage, reverse=True)`: a stable sort, descending. */
  function SortByUsage(entries: seq<Field>): (r: seq<Field>)
    ensures |r| == |entries|
  {
    if entries == [] then [] else Insert(entries[0], SortByUsage(entries[1..]))
  }

  /** `items[:n]`. */
  function Take(entries: seq<Field>, n: nat): (r: seq<Field>)
    ensures |r| == if |entries| <= n then |entries| else n
    ensures r == entries[..|r|]
  {
    if |entries| <= n then entries else entries[..n]
  }

  /** The order of the colours after the `try`: sorted when every key can be
      computed, the original order when computing one fails. */
  function OrderColors(colors: seq<Field>): (r: seq<Field>)
    ensures multiset(r) == multiset(colors)
    ensures AllDicts(colors) ==> Descending(r)
  {
    if AllDicts(colors) then
      SortByUsagePermutes(colors);
      SortByUsageDescending(colors);
      SortByUsage(colors)
    else colors
  }

  /** A group that is absent or a dict, so that `.items()` succeeds. */
  predicate GroupIsDict(tokens: seq<Field>, key: string) {
    Lookup(tokens, key).None? || Lookup(tokens, key).value.Obj?
  }

  /** A group that the next trim would leave as it is. */
  predicate Settled(group: Option<Value>, cap: nat, byUsage: bool) {
    match group
    case None => true
    case Some(g) => g.Obj? && Take(if byUsage then OrderColors(g.fields) else g.fields, cap) == g.fields
  }

  /** `if key in tokens: tokens[key] = dict(list(tokens[key].items())[:cap])`,
      with the colours ordered first; `.items()` raises on a group that is not
      a dict. */
  function Trim(tokens: seq<Field>, key: string, cap: nat, byUsage: bool): (r: Outcome<seq<Field>>)
    ensures r.Ok? <==> GroupIsDict(tokens, key)
    ensures r.Ok? ==> Keys(r.value) == Keys(tokens)
    ensures r.Ok? ==> forall k :: k != key ==> Lookup(r.value, k) == Lookup(tokens, k)
  {
    match Lookup(tokens, key)
    case None => Ok(tokens)
    case Some(Obj(entries)) =>
      Ok(Replace(tokens, key, Obj(Take(if byUsage then OrderColors(entries) else entries, cap))))
    case Some(_) => Raised
  }

  /** `compress_design_tokens(tokens, aggressive)` as a value: the new token
      dict, or `Raised`. */
  function ReduceTokens(tokens: Value, aggressive: bool): (r: Outcome<Value>)
    requires ColorsComparable(tokens)
    ensures !Truthy(tokens) ==> r == Ok(tokens)
    ensures Truthy(tokens) && !tokens.Obj? ==> r.Raised?
    ensures r.Ok? && tokens.Obj? ==> r.value.Obj? && Keys(r.value.fields) == Keys(tokens.fields)
  {
    if !Truthy(tokens) then Ok(tokens)
    else if !tokens.Obj? then Raised
    else
      var caps := CapsFor(aggressive);
      var withColors :- Trim(tokens.fields, "colors", caps.colors, true);
      var withTypography :- Trim(withColors, "typography", caps.typography, false);
      var withSpacing :- Trim(withTypography, "spacing", caps.spacing, false);
      Ok(Obj(withSpacing))
  }

  /** `compress_design_tokens` step by step, one group after the other. */
  method CompressDesignTokens(tokens: Value, aggressive: bool) returns (r: Outcome<Value>)
    requires ColorsComparable(tokens)
    ensures r == ReduceTokens(tokens, aggressive)
  {
    if !Truthy(tokens) {
      return Ok(tokens);
    }
    if !tokens.Obj? {
      return Raised;
    }
    var caps := CapsFor(aggressive);
    var withColors := TrimGroup(tokens.fields, "colors", caps.colors, true);
    if withColors.Raised? {
      return Raised;
    }
    var withTypography := TrimGroup(withColors.value, "typography", caps.typography, false);
    if withTypography.Raised? {
      return Raised;
    }
    var withSpacing := TrimGroup(withTypography.value, "spacing", caps.spacing, false);
    if withSpacing.Raised? {
      return Raised;
    }
    return Ok(Obj(withSpacing.value));
  }

  /** One `if key in tokens:` block of `compress_design_tokens`. */
  method TrimGroup(fields: seq<Field>, key: string, cap: nat, byUsage: bool) returns (r: Outcome<seq<Field>>)
    ensures r == Trim(fields, key, cap, byUsage)
  {
    var group := Lookup(fields, key);
    if group.None? {
      return Ok(fields);
    }
    if !group.value.Obj? {
      return Raised;
    }
    var items := group.value.fields;
    if byUsage && AllDicts(items) {
      items := SortByUsage(items);
    }
    return Ok(Replace(fields, key, Obj(Take(items, cap))));
  }

  // The colour order is a stable sort.

  lemma {:induction false} InsertPermutes(e: Field, sorted: seq<Field>)
    ensures multiset(Insert(e, sorted)) == multiset(sorted) + multiset{e}
  {
    if !(sorted == [] || Usage(sorted[0].1) <= Usage(e.1)) {
      InsertPermutes(e, sorted[1..]);
      assert sorted == [sorted[0]] + sorted[1..];
    }
  }

  lemma {:induction false} InsertKeepsDescending(e: Field, sorted: seq<Field>)
    requires Descending(sorted)
    ensures Descending(Insert(e, sorted))
  {
    if sorted == [] || Usage(sorted[0].1) <= Usage(e.1) {
      var r := [e] + sorted;
      forall i, j | 0 <= i < j < |r|
        ensures Usage(r[i].1) >= Usage(r[j].1)
      {
        assert r[j] == sorted[j - 1];
        if i > 0 {
          assert r[i] == sorted[i - 1];
        } else if j > 1 {
          assert Usage(sorted[0].1) >= Usage(sorted[j - 1].1);
        }
      }
    } else {
      var tail := sorted[1..];
      var rest := Insert(e, tail);
      InsertKeepsDescending(e, tail);
      InsertBelow(e, tail, Usage(sorted[0].1));
      var r := [sorted[0]] + rest;
      forall i, j | 0 <= i < j < |r|
        ensures Usage(r[i].1) >= Usage(r[j].1)
      {
        assert r[j] == rest[j - 1];
        if i > 0 {
          assert r[i] == rest[i - 1];
        }
      }
    }
  }

  /** Inserting below a bound that every entry respects keeps them all below it. */
  lemma InsertBelow(e: Field, sorted: seq<Field>, bound: int)
    requires Usage(e.1) <= bound
    requires forall k :: 0 <= k < |sorted| ==> Usage(sorted[k].1) <= bound
    ensures forall k :: 0 <= k < |Insert(e, sorted)| ==> Usage(Insert(e, sorted)[k].1) <= bound
  {
    var r := Insert(e, sorted);
    InsertPermutes(e, sorted);
    forall k | 0 <= k < |r|
      ensures Usage(r[k].1) <= bound
    {
      assert r[k] in multiset(r);
      if r[k] != e {
        assert r[k] in multiset(sorted);
        var m :| 0 <= m < |sorted| && sorted[m] == r[k];
      }
    }
  }

  /** Inserting `e` passes over greater usages only, so among the entries of
      its usage it lands first. */
  lemma {:induction false} InsertWithUsage(e: Field, sorted: seq<Field>, u: int)
    ensures WithUsage(Insert(e, sorted), u) == (if Usage(e.1) == u then [e] else []) + WithUsage(sorted, u)
  {
    var mine := if Usage(e.1) == u then [e] else [];
    var r := Insert(e, sorted);
    if sorted == [] || Usage(sorted[0].1) <= Usage(e.1) {
      assert r == [e] + sorted;
      assert r[0] == e && r[1..] == sorted;
    } else {
      var rest := Insert(e, sorted[1..]);
      var first := if Usage(sorted[0].1) == u then [sorted[0]] else [];
      assert r == [sorted[0]] + rest;
      assert r[0] == sorted[0] && r[1..] == rest;
      assert WithUsage(r, u) == first + WithUsage(rest, u);
      InsertWithUsage(e, sorted[1..], u);
      assert WithUsage(sorted, u) == first + WithUsage(sorted[1..], u);
      assert first == [] || mine == [];
    }
  }

  lemma {:induction false} SortByUsageDescending(entries: seq<Field>)
    ensures Descending(SortByUsage(entries))
  {
    if entries != [] {
      SortByUsageDescending(entries[1..]);
      InsertKeepsDescending(entries[0], SortByUsage(entries[1..]));
    }
  }

  lemma {:induction false} SortByUsagePermutes(entries: seq<Field>)
    ensures multiset(SortByUsage(entries)) == multiset(entries)
  {
    if entries != [] {
      SortByUsagePermutes(entries[1..]);
      InsertPermutes(entries[0], SortByUsage(entries[1..]));
      assert entries == [entries[0]] + entries[1..];
    }
  }

  lemma {:induction false} SortByUsageStable(entries: seq<Field>, u: int)
    ensures WithUsage(SortByUsage(entries), u) == WithUsage(entries, u)
  {
    if entries != [] {
      SortByUsageStable(entries[1..], u);
      InsertWithUsage(entries[0], SortByUsage(entries[1..]), u);
    }
  }

  /** `SortByUsage` is a stable sort in descending order of usage: it
      permutes the entries, orders them, and keeps the order of the entries
      of each usage. */
  lemma SortByUsageIsStableSort(entries: seq<Field>)
    ensures Descending(SortByUsage(entries))
    ensures multiset(SortByUsage(entries)) == multiset(entries)
    ensures forall u :: WithUsage(SortByUsage(entries), u) == WithUsage(entries, u)
  {
    SortByUsageDescending(entries);
    SortByUsagePermutes(entries);
    forall u
      ensures WithUsage(SortByUsage(entries), u) == WithUsage(entries, u)
    {
      SortByUsageStable(entries, u);
    }
  }

  /** Sorting entries already in order changes nothing. */
  lemma {:induction false} SortedUnchanged(entries: seq<Field>)
    requires Descending(entries)
    ensures SortByUsage(entries) == entries
  {
    if entries != [] {
      SortedUnchanged(entries[1..]);
      assert entries == [entries[0]] + entries[1..];
    }
  }

  lemma {:induction false} WithUsageAppend(a: seq<Field>, b: seq<Field>, u: int)
    ensures WithUsage(a + b, u) == WithUsage(a, u) + WithUsage(b, u)
  {
    if a != [] {
      WithUsageAppend(a[1..], b, u);
      assert (a + b)[0] == a[0];
      assert (a + b)[1..] == a[1..] + b;
    } else {
      assert a + b == b;
    }
  }

  // What a reduction leaves.

  /** `after` holds the `cap` colours of `before` with the highest usage, in
      descending order, ties in their original order; or, when some colour is
      not a dict, the first `cap` colours as they were. */
  ghost predicate TopColors(before: seq<Field>, after: seq<Field>, cap: nat) {
    && |after| == (if |before| <= cap then |before| else cap)
    && multiset(after) <= multiset(before)
    && (AllDicts(before) ==>
         && Descending(after)
         && (forall e, d :: e in after && d in before && d !in after ==> Usage(e.1) >= Usage(d.1))
         && (forall u :: WithUsage(after, u) <= WithUsage(before, u)))
    && (!AllDicts(before) ==> after == before[..|after|])
  }

  /** In a descending sequence, what a prefix keeps outranks what it drops. */
  lemma KeptOutrankDropped(sorted: seq<Field>, n: nat)
    requires n <= |sorted| && Descending(sorted)
    ensures forall e, d :: e in sorted[..n] && d in sorted && d !in sorted[..n] ==> Usage(e.1) >= Usage(d.1)
  {
    forall e, d | e in sorted[..n] && d in sorted && d !in sorted[..n]
      ensures Usage(e.1) >= Usage(d.1)
    {
      var i :| 0 <= i < n && sorted[..n][i] == e;
      var j :| 0 <= j < |sorted| && sorted[j] == d;
      if j < n {
        assert false;
      }
      assert sorted[i] == e;
    }
  }

  /** The first `n` colours of the usage order are in order and come from
      the input. */
  lemma SortedPrefixOrdered(colors: seq<Field>, sorted: seq<Field>, n: nat)
    requires sorted == SortByUsage(colors) && n <= |sorted|
    ensures Descending(sorted[..n])
    ensures multiset(sorted[..n]) <= multiset(colors)
  {
    SortByUsageDescending(colors);
    SortByUsagePermutes(colors);
    assert sorted == sorted[..n] + sorted[n..];
    assert multiset(sorted) == multiset(sorted[..n]) + multiset(sorted[n..]);
  }

  /** The first `n` colours of the usage order outrank the rest. */
  lemma SortedPrefixOutranks(colors: seq<Field>, sorted: seq<Field>, n: nat)
    requires sorted == SortByUsage(colors) && n <= |sorted|
    ensures forall e, d :: e in sorted[..n] && d in colors && d !in sorted[..n] ==> Usage(e.1) >= Usage(d.1)
  {
    SortByUsageDescending(colors);
    SortByUsagePermutes(colors);
    KeptOutrankDropped(sorted, n);
    forall d | d in colors
      ensures d in sorted
    {
      assert d in multiset(colors);
    }
  }

  /** The first `n` colours of the usage order keep the order of equal
      usages. */
  lemma SortedPrefixStable(colors: seq<Field>, sorted: seq<Field>, n: nat)
    requires sorted == SortByUsage(colors) && n <= |sorted|
    ensures forall u :: WithUsage(sorted[..n], u) <= WithUsage(colors, u)
  {
    assert sorted == sorted[..n] + sorted[n..];
    forall u
      ensures WithUsage(sorted[..n], u) <= WithUsage(colors, u)
    {
      SortByUsageStable(colors, u);
      WithUsageAppend(sorted[..n], sorted[n..], u);
    }
  }

  lemma ColorsOfTrim(colors: seq<Field>, cap: nat)
    ensures TopColors(colors, Take(OrderColors(colors), cap), cap)
  {
    var kept := Take(OrderColors(colors), cap);
    if !AllDicts(colors) {
      assert colors == kept + colors[|kept|..];
    } else {
      var sorted := SortByUsage(colors);
      SortByUsagePermutes(colors);
      assert |sorted| == |multiset(sorted)| == |colors|;
      assert kept == sorted[..|kept|];
      SortedPrefixOrdered(colors, sorted, |kept|);
      SortedPrefixOutranks(colors, sorted, |kept|);
      SortedPrefixStable(colors, sorted, |kept|);
    }
  }

  /** The part of a reduction concerning one group of the token dict. */
  ghost predicate GroupReduced(before: seq<Field>, after: seq<Field>, key: string, cap: nat, byUsage: bool) {
    match Lookup(before, key)
    case None => Lookup(after, key).None?
    case Some(group) =>
      && group.Obj?
      && Lookup(after, key).Some?
      && Lookup(after, key).value.Obj?
      && var kept := Lookup(after, key).value.fields;
      if byUsage then TopColors(group.fields, kept, cap)
      else |kept| == (if |group.fields| <= cap then |group.fields| else cap) && kept == group.fields[..|kept|]
  }

  lemma {:induction false} TrimReduces(tokens: seq<Field>, key: string, cap: nat, byUsage: bool)
    requires Trim(tokens, key, cap, byUsage).Ok?
    ensures GroupReduced(tokens, Trim(tokens, key, cap, byUsage).value, key, cap, byUsage)
  {
    if Lookup(tokens, key).Some? && byUsage {
      ColorsOfTrim(Lookup(tokens, key).value.fields, cap);
    }
  }

  /** One group reduced, seen from the state before and after other groups
      were trimmed. */
  lemma GroupReducedAcross(before: seq<Field>, before': seq<Field>, after: seq<Field>, after': seq<Field>,
                           key: string, cap: nat, byUsage: bool)
    requires GroupReduced(before, after, key, cap, byUsage)
    requires Lookup(before', key) == Lookup(before, key)
    requires Lookup(after', key) == Lookup(after, key)
    ensures GroupReduced(before', after', key, cap, byUsage)
  {
  }

  /** A reduction of a non-empty token dict raises exactly when one of the
      three groups is present but not a dict. */
  lemma ReduceTokensRaises(tokens: Value, aggressive: bool)
    requires Truthy(tokens) && tokens.Obj? && ColorsComparable(tokens)
    ensures ReduceTokens(tokens, aggressive).Ok? <==>
      && GroupIsDict(tokens.fields, "colors")
      && GroupIsDict(tokens.fields, "typography")
      && GroupIsDict(tokens.fields, "spacing")
  {
    var caps := CapsFor(aggressive);
    var t1 := Trim(tokens.fields, "colors", caps.colors, true);
    if t1.Ok? {
      assert Lookup(t1.value, "typography") == Lookup(tokens.fields, "typography");
      assert Lookup(t1.value, "spacing") == Lookup(tokens.fields, "spacing");
      var t2 := Trim(t1.value, "typography", caps.typography, false);
      if t2.Ok? {
        assert Lookup(t2.value, "spacing") == Lookup(tokens.fields, "spacing");
      }
    }
  }

  /** A reduction that succeeds cuts colours, typography and spacing with
      the caps of its tier and leaves every other key alone. */
  lemma ReduceTokensEffect(tokens: Value, aggressive: bool)
    requires Truthy(tokens) && tokens.Obj? && ColorsComparable(tokens)
    requires ReduceTokens(tokens, aggressive).Ok?
    ensures var after := ReduceTokens(tokens, aggressive).value.fields;
      var caps := CapsFor(aggressive);
      && GroupReduced(tokens.fields, after, "colors", caps.colors, true)
      && GroupReduced(tokens.fields, after, "typography", caps.typography, false)
      && GroupReduced(tokens.fields, after, "spacing", caps.spacing, false)
      && forall k :: k != "colors" && k != "typography" && k != "spacing" ==>
           Lookup(after, k) == Lookup(tokens.fields, k)
  {
    var caps := CapsFor(aggressive);
    var t1 := Trim(tokens.fields, "colors", caps.colors, true).value;
    var t2 := Trim(t1, "typography", caps.typography, false).value;
    var t3 := Trim(t2, "spacing", caps.spacing, false).value;
    assert ReduceTokens(tokens, aggressive).value.fields == t3;
    TrimReduces(tokens.fields, "colors", caps.colors, true);
    TrimReduces(t1, "typography", caps.typography, false);
    TrimReduces(t2, "spacing", caps.spacing, false);
    assert Lookup(t3, "colors") == Lookup(t2, "colors") == Lookup(t1, "colors");
    assert Lookup(t3, "typography") == Lookup(t2, "typography");
    assert Lookup(t1, "typography") == Lookup(tokens.fields, "typography");
    assert Lookup(t2, "spacing") == Lookup(t1, "spacing") == Lookup(tokens.fields, "spacing");
    GroupReducedAcross(tokens.fields, tokens.fields, t1, t3, "colors", caps.colors, true);
    GroupReducedAcross(t1, tokens.fields, t2, t3, "typography", caps.typography, false);
    GroupReducedAcross(t2, tokens.fields, t3, t3, "spacing", caps.spacing, false);
  }

  // Reducing twice.

  /** The first `cap` colours are all dicts only if all of them are, or
      else they are already in order. When this fails, a first reduction
      falls back to the original order and leaves only dicts, out of order,
      which a second reduction then sorts. */
  predicate FallbackStable(colors: seq<Field>, cap: nat) {
    AllDicts(Take(colors, cap)) ==> AllDicts(colors) || Descending(Take(colors, cap))
  }

  predicate ColorsFallbackStable(tokens: Value, aggressive: bool) {
    tokens.Obj? ==>
      match Lookup(tokens.fields, "colors")
      case Some(Obj(colors)) => FallbackStable(colors, CapsFor(aggressive).colors)
      case _ => true
  }

  /** The colours left by one reduction are left alone by the next. */
  lemma {:induction false} ColorsSettle(colors: seq<Field>, cap: nat)
    requires FallbackStable(colors, cap)
    ensures var kept := Take(OrderColors(colors), cap);
      Take(OrderColors(kept), cap) == kept
  {
    var kept := Take(OrderColors(colors), cap);
    if AllDicts(colors) {
      var sorted := SortByUsage(colors);
      SortByUsagePermutes(colors);
      assert |sorted| == |multiset(sorted)| == |colors|;
      assert kept == sorted[..|kept|];
      SortedPrefixOrdered(colors, sorted, |kept|);
      AllDictsOfSubset(colors, kept);
      SortedUnchanged(kept);
    } else {
      assert kept == Take(colors, cap);
      if AllDicts(kept) {
        SortedUnchanged(kept);
      }
      assert OrderColors(kept) == kept;
    }
  }

  /** A second cut of the colours changes nothing exactly when
      `FallbackStable` holds. */
  lemma {:induction false} ColorsSettleExactly(colors: seq<Field>, cap: nat)
    ensures var kept := Take(OrderColors(colors), cap);
      Take(OrderColors(kept), cap) == kept <==> FallbackStable(colors, cap)
  {
    if FallbackStable(colors, cap) {
      ColorsSettle(colors, cap);
    } else {
      assert cap < |colors|;
      assert Take(colors, cap) == colors[..cap];
      SecondPassReorders(colors, cap);
    }
  }

  lemma AllDictsOfSubset(entries: seq<Field>, part: seq<Field>)
    requires AllDicts(entries) && multiset(part) <= multiset(entries)
    ensures AllDicts(part)
  {
    forall i | 0 <= i < |part|
      ensures part[i].1.Obj?
    {
      assert part[i] in multiset(entries);
      var j :| 0 <= j < |entries| && entries[j] == part[i];
    }
  }

  lemma UsagesComparableOfSubset(entries: seq<Field>, part: seq<Field>)
    requires UsagesComparable(entries) && multiset(part) <= multiset(entries)
    ensures UsagesComparable(part)
  {
    forall i | 0 <= i < |part|
      ensures ComparableUsage(part[i].1)
    {
      assert part[i] in multiset(entries);
      var j :| 0 <= j < |entries| && entries[j] == part[i];
    }
  }

  /** A group that holds what the next trim would leave is left alone. */
  lemma TrimSettled(tokens: seq<Field>, key: string, cap: nat, byUsage: bool)
    requires Settled(Lookup(tokens, key), cap, byUsage)
    ensures Trim(tokens, key, cap, byUsage) == Ok(tokens)
  {
    if Lookup(tokens, key).Some? {
      ReplaceWithSame(tokens, key, Lookup(tokens, key).value);
    }
  }

  /** What a reduction keeps of the colours are colours it was given. */
  lemma ReduceTokensKeepsComparable(tokens: Value, aggressive: bool)
    requires ColorsComparable(tokens) && ReduceTokens(tokens, aggressive).Ok?
    ensures ColorsComparable(ReduceTokens(tokens, aggressive).value)
  {
    if Truthy(tokens) {
      var once := ReduceTokens(tokens, aggressive).value;
      ReduceTokensEffect(tokens, aggressive);
      if Lookup(tokens.fields, "colors").Some? {
        var group := Lookup(tokens.fields, "colors").value;
        UsagesComparableOfSubset(group.fields, Lookup(once.fields, "colors").value.fields);
      }
    }
  }

  lemma GroupSettles(tokens: seq<Field>, key: string, cap: nat, byUsage: bool)
    requires Trim(tokens, key, cap, byUsage).Ok?
    requires byUsage && Lookup(tokens, key).Some? ==> FallbackStable(Lookup(tokens, key).value.fields, cap)
    ensures Settled(Lookup(Trim(tokens, key, cap, byUsage).value, key), cap, byUsage)
  {
    if byUsage && Lookup(tokens, key).Some? {
      ColorsSettle(Lookup(tokens, key).value.fields, cap);
    }
  }

  lemma ReduceSettled(tokens: Value, aggressive: bool)
    requires tokens.Obj? && Truthy(tokens) && ColorsComparable(tokens)
    requires var caps := CapsFor(aggressive);
      && Settled(Lookup(tokens.fields, "colors"), caps.colors, true)
      && Settled(Lookup(tokens.fields, "typography"), caps.typography, false)
      && Settled(Lookup(tokens.fields, "spacing"), caps.spacing, false)
    ensures ReduceTokens(tokens, aggressive) == Ok(tokens)
  {
    var caps := CapsFor(aggressive);
    TrimSettled(tokens.fields, "colors", caps.colors, true);
    TrimSettled(tokens.fields, "typography", caps.typography, false);
    TrimSettled(tokens.fields, "spacing", caps.spacing, false);
  }

  /** Reducing the tokens a second time with the same tier changes nothing,
      unless a colour that is not a dict lies beyond the cap and the colours
      before it are out of order. */
  lemma {:induction false} ReduceTokensIdempotent(tokens: Value, aggressive: bool)
    requires ColorsComparable(tokens) && ReduceTokens(tokens, aggressive).Ok?
    requires ColorsFallbackStable(tokens, aggressive)
    ensures var once := ReduceTokens(tokens, aggressive).value;
      ColorsComparable(once) && ReduceTokens(once, aggressive) == Ok(once)
  {
    ReduceTokensKeepsComparable(tokens, aggressive);
    if Truthy(tokens) {
      var caps := CapsFor(aggressive);
      var once := ReduceTokens(tokens, aggressive).value;
      var t1 := Trim(tokens.fields, "colors", caps.colors, true).value;
      var t2 := Trim(t1, "typography", caps.typography, false).value;
      var t3 := Trim(t2, "spacing", caps.spacing, false).value;
      assert once.fields == t3;
      assert Truthy(once) by {
        assert Keys(once.fields) == Keys(tokens.fields);
      }
      GroupSettles(tokens.fields, "colors", caps.colors, true);
      GroupSettles(t1, "typography", caps.typography, false);
      GroupSettles(t2, "spacing", caps.spacing, false);
      assert Lookup(t3, "colors") == Lookup(t1, "colors");
      assert Lookup(t3, "typography") == Lookup(t2, "typography");
      ReduceSettled(once, aggressive);
    }
  }

  /** Without `FallbackStable` the second reduction can reorder the colours:
      the first keeps a prefix that is all dicts but not in order, and the
      second sorts it. */
  lemma {:induction false} SecondPassReorders(colors: seq<Field>, cap: nat)
    requires cap < |colors| && !AllDicts(colors)
    requires AllDicts(colors[..cap]) && !Descending(colors[..cap])
    ensures var kept := Take(OrderColors(colors), cap);
      Take(OrderColors(kept), cap) != kept
  {
    var kept := Take(OrderColors(colors), cap);
    assert kept == colors[..cap];
    SortByUsageDescending(kept);
    SortByUsagePermutes(kept);
    var sorted := SortByUsage(kept);
    assert |sorted| == |multiset(sorted)| == |multiset(kept)| == |kept|;
    assert Take(OrderColors(kept), cap) == sorted;
  }

  /** Fifteen colours with usages 0 to 14, then one that is not a dict. */
  function Swatch(i: nat): Field
    requires i < 15
    ensures Swatch(i).1.Obj?
  {
    (['c', ('a' as int + i) as char], Obj([("usage", Int(i))]))
  }

  const MixedColors: seq<Field> := seq(15, i requires 0 <= i < 15 => Swatch(i)) + [("plain", Str("#000000"))]

  /** A token dict holding only colours. */
  lemma ReduceColorsOnly(colors: seq<Field>, aggressive: bool)
    requires UsagesComparable(colors)
    ensures ColorsComparable(Obj([("colors", Obj(colors))]))
    ensures ReduceTokens(Obj([("colors", Obj(colors))]), aggressive) ==
      Ok(Obj([("colors", Obj(Take(OrderColors(colors), CapsFor(aggressive).colors)))]))
  {
    var caps := CapsFor(aggressive);
    var tokens := [("colors", Obj(colors))];
    assert Lookup(tokens, "colors") == Some(Obj(colors));
    var t1 := [("colors", Obj(Take(OrderColors(colors), caps.colors)))];
    assert tokens[1..] == [];
    assert Replace(tokens, "colors", t1[0].1) == [t1[0]] + tokens[1..] == t1;
    assert Trim(tokens, "colors", caps.colors, true) == Ok(t1);
    assert Lookup(t1, "typography") == None;
    assert Lookup(t1, "spacing") == None;
  }

  lemma MixedColorsFacts()
    ensures UsagesComparable(MixedColors) && !AllDicts(MixedColors)
    ensures AllDicts(MixedColors[..15]) && !Descending(MixedColors[..15])
  {
    assert !MixedColors[15].1.Obj?;
    forall i | 0 <= i < |MixedColors|
      ensures ComparableUsage(MixedColors[i].1)
    {
      if i < 15 {
        assert MixedColors[i] == Swatch(i);
      }
    }
    assert Usage(MixedColors[0].1) == 0 && Usage(MixedColors[1].1) == 1;
  }

  /** A token dict that the aggressive tier reduces differently the second
      time. */
  lemma AggressiveTokensNotIdempotent()
    ensures var tokens := Obj([("colors", Obj(MixedColors))]);
      && ColorsComparable(tokens)
      && ReduceTokens(tokens, true).Ok?
      && ColorsComparable(ReduceTokens(tokens, true).value)
      && ReduceTokens(ReduceTokens(tokens, true).value, true) != ReduceTokens(tokens, true)
  {
    MixedColorsFacts();
    SecondPassReorders(MixedColors, 15);
    ReduceColorsOnly(MixedColors, true);
    var kept := Take(OrderColors(MixedColors), 15);
    UsagesComparableOfSubset(MixedColors, kept);
    ReduceColorsOnly(kept, true);
  }
}
