/** The review workspace groups order samples twice: by sample group, platform, payment, shipping and
    masked order number, and then without the order number.  Group keys are texts joined by NUL. */
module Grouping {
  import opened Common
  import opened Sequences

  datatype Sample = Sample(
    group: Option<string>, platform: Option<string>, payment: Option<string>, shipping: Option<string>,
    externalNumber: Option<string>)

  datatype PatternRow = PatternRow(
    group: Option<string>, platform: Option<string>, payment: Option<string>, shipping: Option<string>,
    pattern: string, sampled: nat)

  datatype MinimalRow = MinimalRow(
    group: Option<string>, platform: Option<string>, payment: Option<string>, shipping: Option<string>,
    patterns: set<string>, sampled: nat)

  const NUL := '\0'

  function Key(parts: seq<string>): string {
    Join(parts, [NUL])
  }

  function Mask(text: string): string {
    if text == "" then ""
    else
      var c := text[0];
      [if 'A' <= c <= 'Z' || 'a' <= c <= 'z' then 'A' else if '0' <= c <= '9' then '9' else c] + Mask(text[1..])
  }

  function PatternOf(s: Sample): string {
    var text := Text(s.externalNumber);
    if text == "" then "(blank)" else Mask(if |text| <= 64 then text else text[..64])
  }

  function Fields(s: Sample): seq<string> {
    [Text(s.group), Text(s.platform), Text(s.payment), Text(s.shipping)]
  }

  function SampleKey(s: Sample): string {
    Key(Fields(s) + [PatternOf(s)])
  }

  function RowFields(r: PatternRow): seq<string> {
    [Text(r.group), Text(r.platform), Text(r.payment), Text(r.shipping)]
  }

  function RowKey(r: PatternRow): string {
    Key(RowFields(r) + [r.pattern])
  }

  function MinimalKey(r: PatternRow): string {
    Key(RowFields(r))
  }

  function GroupKey(g: MinimalRow): string {
    Key([Text(g.group), Text(g.platform), Text(g.payment), Text(g.shipping)])
  }

  // ---------------------------------------------------------------------------------------------
  // Patterns
  // ---------------------------------------------------------------------------------------------

  predicate Letter(c: char) { 'A' <= c <= 'Z' || 'a' <= c <= 'z' }

  predicate Digit(c: char) { '0' <= c <= '9' }

  /** Masking keeps every place, and in it only whether there is a letter, a digit, or which other character. */
  lemma {:induction false} MaskMeaning(text: string, i: nat)
    requires i < |text|
    ensures |Mask(text)| == |text|
    ensures Mask(text)[i] == if Letter(text[i]) then 'A' else if Digit(text[i]) then '9' else text[i]
  {
    if |text| > 1 {
      MaskMeaning(text[1..], if i == 0 then 0 else i - 1);
    } else {
      assert Mask(text[1..]) == "";
    }
  }

  /** The first 64 characters; a missing number is an empty one. */
  function Start(number: Option<string>): string {
    if number.None? then "" else if |number.value| <= 64 then number.value else number.value[..64]
  }

  predicate SamePlace(a: char, b: char) {
    (Letter(a) && Letter(b)) || (Digit(a) && Digit(b)) || a == b
  }

  /** Two order numbers look alike up to letters and digits, as far as they are looked at. */
  predicate SameShape(a: string, b: string) {
    |a| == |b| && forall i :: 0 <= i < |a| ==> SamePlace(a[i], b[i])
  }

  lemma MasksAgreeIff(a: string, b: string)
    ensures Mask(a) == Mask(b) <==> SameShape(a, b)
  {
    MaskLength(a);
    MaskLength(b);
    if |a| == |b| {
      forall i | 0 <= i < |a|
        ensures Mask(a)[i] == Mask(b)[i] <==> SamePlace(a[i], b[i])
      {
        MaskMeaning(a, i);
        MaskMeaning(b, i);
      }
    }
  }

  lemma MaskLength(text: string)
    ensures |Mask(text)| == |text|
  {
    if text != "" {
      MaskMeaning(text, 0);
    }
  }

  lemma MaskIsNotBlank(text: string)
    ensures Mask(text) != "(blank)"
  {
    MaskLength(text);
    if |text| > 1 {
      MaskMeaning(text, 1);
    }
  }

  /** Two samples have the same pattern exactly when the starts of their order numbers have the same shape. */
  lemma PatternsAgreeIff(a: Sample, b: Sample)
    ensures PatternOf(a) == PatternOf(b) <==> SameShape(Start(a.externalNumber), Start(b.externalNumber))
    ensures PatternOf(a) == "(blank)" <==> a.externalNumber.None? || a.externalNumber == Some("")
  {
    var x, y := Start(a.externalNumber), Start(b.externalNumber);
    MasksAgreeIff(x, y);
    MaskIsNotBlank(x);
    MaskIsNotBlank(y);
  }

  // ---------------------------------------------------------------------------------------------
  // Joined keys
  // ---------------------------------------------------------------------------------------------

  ghost predicate NulFree(parts: seq<string>) {
    forall p <- parts :: NUL !in p
  }

  lemma FirstPart(a: string, x: string, b: string, y: string)
    requires NUL !in a && NUL !in b && a + [NUL] + x == b + [NUL] + y
    ensures a == b && x == y
  {
    var t := a + [NUL] + x;
    assert t == b + [NUL] + y;
    assert t[|a|] == NUL && t[|b|] == NUL;
    assert forall i :: 0 <= i < |a| ==> t[i] in a;
    assert forall i :: 0 <= i < |b| ==> t[i] in b;
    assert |a| == |b|;
    assert t[..|a|] == a && t[..|b|] == b;
    assert t[|a| + 1..] == x && t[|b| + 1..] == y;
  }

  /** NUL-joined keys separate tuples of texts without NUL. */
  lemma {:induction false} JoinIsInjective(a: seq<string>, b: seq<string>)
    requires |a| == |b| && NulFree(a) && NulFree(b)
    ensures Key(a) == Key(b) <==> a == b
  {
    if |a| > 1 {
      assert a == [a[0]] + a[1..] && b == [b[0]] + b[1..];
      JoinIsInjective(a[1..], b[1..]);
      if Key(a) == Key(b) {
        FirstPart(a[0], Key(a[1..]), b[0], Key(b[1..]));
      }
    }
  }

  lemma {:induction false} MaskKeepsNulFree(text: string)
    requires NUL !in text
    ensures NUL !in Mask(text)
  {
    if text != "" {
      assert text == [text[0]] + text[1..];
      MaskKeepsNulFree(text[1..]);
    }
  }

  ghost predicate Clean(s: Sample) {
    NulFree(Fields(s)) && NUL !in Text(s.externalNumber)
  }

  lemma PatternIsNulFree(s: Sample)
    requires Clean(s)
    ensures NUL !in PatternOf(s)
  {
    var text := Text(s.externalNumber);
    MaskKeepsNulFree(if |text| <= 64 then text else text[..64]);
  }

  // ---------------------------------------------------------------------------------------------
  // First level
  // ---------------------------------------------------------------------------------------------

  function CountKey(samples: seq<Sample>, key: string): nat {
    if samples == [] then 0
    else CountKey(samples[..|samples| - 1], key) + if SampleKey(samples[|samples| - 1]) == key then 1 else 0
  }

  function TotalRows(rows: seq<PatternRow>): nat {
    if rows == [] then 0 else TotalRows(rows[..|rows| - 1]) + rows[|rows| - 1].sampled
  }

  ghost predicate Represents(r: PatternRow, s: Sample) {
    RowFields(r) == Fields(s) && r.pattern == PatternOf(s)
  }

  ghost predicate Witnessed(samples: seq<Sample>, r: PatternRow) {
    exists i :: 0 <= i < |samples| && Represents(r, samples[i])
  }

  ghost predicate HasRow(rows: seq<PatternRow>, key: string) {
    exists i :: 0 <= i < |rows| && RowKey(rows[i]) == key
  }

  /** The rows are the classes of the samples under equality of keys, with their sizes. */
  ghost predicate GroupsOf(samples: seq<Sample>, rows: seq<PatternRow>) {
    && (forall i, k :: 0 <= i < k < |rows| ==> RowKey(rows[i]) != RowKey(rows[k]))
    && (forall i :: 0 <= i < |rows| ==> rows[i].sampled == CountKey(samples, RowKey(rows[i])))
    && (forall i {:trigger Witnessed(samples, rows[i])} :: 0 <= i < |rows| ==> Witnessed(samples, rows[i]))
    && (forall i {:trigger HasRow(rows, SampleKey(samples[i]))} ::
          0 <= i < |samples| ==> HasRow(rows, SampleKey(samples[i])))
  }

  ghost predicate Entry(samples: seq<Sample>, key: string, r: PatternRow) {
    RowKey(r) == key && r.sampled == CountKey(samples, key) && Witnessed(samples, r)
  }

  /** The map holds one row for every key among the samples. */
  ghost predicate Tracks(samples: seq<Sample>, grouped: map<string, PatternRow>) {
    && (forall k {:trigger Entry(samples, k, grouped[k])} :: k in grouped ==> Entry(samples, k, grouped[k]))
    && (forall i {:trigger SampleKey(samples[i])} :: 0 <= i < |samples| ==> SampleKey(samples[i]) in grouped)
    && (forall k {:trigger CountKey(samples, k)} :: k !in grouped ==> CountKey(samples, k) == 0)
  }

  function NewRow(s: Sample): PatternRow {
    PatternRow(s.group, s.platform, s.payment, s.shipping, PatternOf(s), 0)
  }

  lemma CountOneMore(samples: seq<Sample>, s: Sample, key: string)
    ensures CountKey(samples + [s], key) == CountKey(samples, key) + if SampleKey(s) == key then 1 else 0
  {
    assert (samples + [s])[..|samples|] == samples;
  }

  lemma OldEntry(samples: seq<Sample>, s: Sample, key: string, r: PatternRow)
    requires Entry(samples, key, r) && SampleKey(s) != key
    ensures Entry(samples + [s], key, r)
  {
    var i :| 0 <= i < |samples| && Represents(r, samples[i]);
    assert (samples + [s])[i] == samples[i];
    CountOneMore(samples, s, key);
  }

  lemma NewEntry(samples: seq<Sample>, s: Sample, r: PatternRow)
    requires Entry(samples, SampleKey(s), r) || (r == NewRow(s) && CountKey(samples, SampleKey(s)) == 0)
    ensures Entry(samples + [s], SampleKey(s), r.(sampled := r.sampled + 1))
  {
    var more, r' := samples + [s], r.(sampled := r.sampled + 1);
    CountOneMore(samples, s, SampleKey(s));
    assert RowKey(r') == RowKey(r);
    if r == NewRow(s) {
      assert Represents(r', more[|samples|]);
    } else {
      var i :| 0 <= i < |samples| && Represents(r, samples[i]);
      assert Represents(r', more[i]);
    }
  }

  function WithSample(grouped: map<string, PatternRow>, s: Sample): map<string, PatternRow> {
    var key := SampleKey(s);
    var current := if key in grouped then grouped[key] else NewRow(s);
    grouped[key := current.(sampled := current.sampled + 1)]
  }

  lemma TrackSample(samples: seq<Sample>, grouped: map<string, PatternRow>, s: Sample)
    requires Tracks(samples, grouped)
    ensures Tracks(samples + [s], WithSample(grouped, s))
  {
    var key, grouped' := SampleKey(s), WithSample(grouped, s);
    assert key in grouped ==> Entry(samples, key, grouped[key]);
    NewEntry(samples, s, if key in grouped then grouped[key] else NewRow(s));
    forall k | k in grouped'
      ensures Entry(samples + [s], k, grouped'[k])
    {
      if k != key {
        assert Entry(samples, k, grouped[k]);
        OldEntry(samples, s, k, grouped[k]);
      }
    }
    forall k | k !in grouped'
      ensures CountKey(samples + [s], k) == 0
    {
      CountOneMore(samples, s, k);
    }
    forall i | 0 <= i < |samples + [s]|
      ensures SampleKey((samples + [s])[i]) in grouped'
    {
      assert i < |samples| ==> SampleKey(samples[i]) in grouped;
    }
  }

  method GroupByPattern(samples: seq<Sample>) returns (rows: seq<PatternRow>)
    ensures GroupsOf(samples, rows)
  {
    var grouped: map<string, PatternRow> := map[];
    var order: seq<string> := [];
    var i := 0;
    while i < |samples|
      invariant i <= |samples| && Distinct(order)
      invariant forall k :: k in order <==> k in grouped
      invariant Tracks(samples[..i], grouped)
    {
      var sample := samples[i];
      var key := SampleKey(sample);
      TrackSample(samples[..i], grouped, sample);
      assert samples[..i + 1] == samples[..i] + [sample];
      ghost var next := WithSample(grouped, sample);
      var current := if key in grouped then grouped[key] else NewRow(sample);
      if key !in grouped {
        order := order + [key];
      }
      grouped := grouped[key := current.(sampled := current.sampled + 1)];
      assert grouped == next;
      i := i + 1;
    }
    assert samples[..i] == samples;
    rows := seq(|order|, n requires 0 <= n < |order| && order[n] in grouped => grouped[order[n]]);
    CollectedRows(samples, grouped, order, rows);
  }

  lemma CollectedRows(samples: seq<Sample>, grouped: map<string, PatternRow>, order: seq<string>, rows: seq<PatternRow>)
    requires Tracks(samples, grouped) && Distinct(order) && |rows| == |order|
    requires forall k :: k in order <==> k in grouped
    requires forall i :: 0 <= i < |rows| ==> order[i] in grouped && rows[i] == grouped[order[i]]
    ensures GroupsOf(samples, rows)
  {
    forall i | 0 <= i < |rows|
      ensures Entry(samples, order[i], rows[i])
    {
      assert Entry(samples, order[i], grouped[order[i]]);
    }
    forall i | 0 <= i < |samples|
      ensures HasRow(rows, SampleKey(samples[i]))
    {
      assert SampleKey(samples[i]) in grouped;
      var n :| 0 <= n < |order| && order[n] == SampleKey(samples[i]);
      assert RowKey(rows[n]) == order[n];
    }
  }

  function SumOfCounts(keys: seq<string>, samples: seq<Sample>): nat {
    if keys == [] then 0 else SumOfCounts(keys[..|keys| - 1], samples) + CountKey(samples, keys[|keys| - 1])
  }

  lemma {:induction false} OneMoreSample(keys: seq<string>, samples: seq<Sample>, s: Sample)
    requires Distinct(keys)
    ensures SumOfCounts(keys, samples + [s]) == SumOfCounts(keys, samples) + if SampleKey(s) in keys then 1 else 0
  {
    assert (samples + [s])[..|samples|] == samples;
    if keys != [] {
      var init, last := keys[..|keys| - 1], keys[|keys| - 1];
      OneMoreSample(init, samples, s);
      assert keys == init + [last];
      assert last !in init;
    }
  }

  lemma {:induction false} CountsAddUp(keys: seq<string>, samples: seq<Sample>)
    requires Distinct(keys) && forall s <- samples :: SampleKey(s) in keys
    ensures SumOfCounts(keys, samples) == |samples|
    decreases |samples|
  {
    if samples == [] {
      NoSamples(keys);
    } else {
      var init, last := samples[..|samples| - 1], samples[|samples| - 1];
      assert samples == init + [last];
      CountsAddUp(keys, init);
      OneMoreSample(keys, init, last);
    }
  }

  lemma {:induction false} NoSamples(keys: seq<string>)
    ensures SumOfCounts(keys, []) == 0
  {
    if keys != [] {
      NoSamples(keys[..|keys| - 1]);
    }
  }

  function KeysOf(rows: seq<PatternRow>): seq<string> {
    seq(|rows|, i requires 0 <= i < |rows| => RowKey(rows[i]))
  }

  lemma {:induction false} RowTotalIsSum(samples: seq<Sample>, rows: seq<PatternRow>)
    requires forall r <- rows :: r.sampled == CountKey(samples, RowKey(r))
    ensures TotalRows(rows) == SumOfCounts(KeysOf(rows), samples)
  {
    if rows != [] {
      var init := rows[..|rows| - 1];
      RowTotalIsSum(samples, init);
      assert KeysOf(rows)[..|rows| - 1] == KeysOf(init);
    }
  }

  /** The first level counts every sample once. */
  lemma PatternGroupsConserve(samples: seq<Sample>, rows: seq<PatternRow>)
    requires GroupsOf(samples, rows)
    ensures TotalRows(rows) == |samples|
  {
    var keys := KeysOf(rows);
    forall i | 0 <= i < |samples|
      ensures SampleKey(samples[i]) in keys
    {
      assert HasRow(rows, SampleKey(samples[i]));
      var n :| 0 <= n < |rows| && RowKey(rows[n]) == SampleKey(samples[i]);
      assert keys[n] == SampleKey(samples[i]);
    }
    RowTotalIsSum(samples, rows);
    CountsAddUp(keys, samples);
  }

  // ---------------------------------------------------------------------------------------------
  // Second level
  // ---------------------------------------------------------------------------------------------

  function SumMinimal(rows: seq<PatternRow>, key: string): nat {
    if rows == [] then 0
    else
      var last := rows[|rows| - 1];
      SumMinimal(rows[..|rows| - 1], key) + if MinimalKey(last) == key then last.sampled else 0
  }

  function PatternsOf(rows: seq<PatternRow>, key: string): set<string> {
    set i | 0 <= i < |rows| && MinimalKey(rows[i]) == key :: rows[i].pattern
  }

  function TotalGroups(groups: seq<MinimalRow>): nat {
    if groups == [] then 0 else TotalGroups(groups[..|groups| - 1]) + groups[|groups| - 1].sampled
  }

  ghost predicate HasGroup(groups: seq<MinimalRow>, key: string) {
    exists i :: 0 <= i < |groups| && GroupKey(groups[i]) == key
  }

  /** The groups are the classes of the rows under equality of minimal keys. */
  ghost predicate MinimalOf(rows: seq<PatternRow>, groups: seq<MinimalRow>) {
    && (forall i, k :: 0 <= i < k < |groups| ==> GroupKey(groups[i]) != GroupKey(groups[k]))
    && (forall i :: 0 <= i < |groups| ==>
          && groups[i].sampled == SumMinimal(rows, GroupKey(groups[i]))
          && groups[i].patterns == PatternsOf(rows, GroupKey(groups[i])))
    && (forall i {:trigger HasGroup(groups, MinimalKey(rows[i]))} ::
          0 <= i < |rows| ==> HasGroup(groups, MinimalKey(rows[i])))
  }

  ghost predicate GroupEntry(rows: seq<PatternRow>, key: string, g: MinimalRow) {
    GroupKey(g) == key && g.sampled == SumMinimal(rows, key) && g.patterns == PatternsOf(rows, key)
  }

  ghost predicate TracksRows(rows: seq<PatternRow>, minimal: map<string, MinimalRow>) {
    && (forall k {:trigger GroupEntry(rows, k, minimal[k])} :: k in minimal ==> GroupEntry(rows, k, minimal[k]))
    && (forall i {:trigger MinimalKey(rows[i])} :: 0 <= i < |rows| ==> MinimalKey(rows[i]) in minimal)
    && (forall k {:trigger SumMinimal(rows, k)} :: k !in minimal ==> SumMinimal(rows, k) == 0)
  }

  function NewGroup(r: PatternRow): MinimalRow {
    MinimalRow(r.group, r.platform, r.payment, r.shipping, {}, 0)
  }

  lemma OneMoreRow(rows: seq<PatternRow>, r: PatternRow, key: string)
    ensures SumMinimal(rows + [r], key) == SumMinimal(rows, key) + if MinimalKey(r) == key then r.sampled else 0
    ensures PatternsOf(rows + [r], key) == PatternsOf(rows, key) + if MinimalKey(r) == key then {r.pattern} else {}
  {
    var more := rows + [r];
    assert more[..|rows|] == rows;
    forall p
      ensures p in PatternsOf(more, key) <==> p in PatternsOf(rows, key) || (MinimalKey(r) == key && p == r.pattern)
    {
      if p in PatternsOf(rows, key) {
        var n :| 0 <= n < |rows| && MinimalKey(rows[n]) == key && rows[n].pattern == p;
        assert more[n] == rows[n];
      }
      if MinimalKey(r) == key && p == r.pattern {
        assert more[|rows|] == r;
      }
      if p in PatternsOf(more, key) {
        var n :| 0 <= n < |more| && MinimalKey(more[n]) == key && more[n].pattern == p;
        assert n < |rows| ==> rows[n] == more[n];
      }
    }
  }

  function WithRow(minimal: map<string, MinimalRow>, r: PatternRow): map<string, MinimalRow> {
    var key := MinimalKey(r);
    var current := if key in minimal then minimal[key] else NewGroup(r);
    minimal[key := current.(patterns := current.patterns + {r.pattern}, sampled := current.sampled + r.sampled)]
  }

  lemma NewGroupEntry(rows: seq<PatternRow>, r: PatternRow, g: MinimalRow)
    requires GroupEntry(rows, MinimalKey(r), g)
    ensures GroupEntry(rows + [r], MinimalKey(r),
                       g.(patterns := g.patterns + {r.pattern}, sampled := g.sampled + r.sampled))
  {
    OneMoreRow(rows, r, MinimalKey(r));
  }

  lemma EmptyGroupEntry(rows: seq<PatternRow>, minimal: map<string, MinimalRow>, r: PatternRow)
    requires TracksRows(rows, minimal) && MinimalKey(r) !in minimal
    ensures GroupEntry(rows, MinimalKey(r), NewGroup(r))
  {
    assert GroupKey(NewGroup(r)) == MinimalKey(r);
    assert PatternsOf(rows, MinimalKey(r)) == {};
  }

  lemma TrackRow(rows: seq<PatternRow>, minimal: map<string, MinimalRow>, r: PatternRow)
    requires TracksRows(rows, minimal)
    ensures TracksRows(rows + [r], WithRow(minimal, r))
  {
    var key, minimal' := MinimalKey(r), WithRow(minimal, r);
    if key in minimal {
      assert GroupEntry(rows, key, minimal[key]);
      NewGroupEntry(rows, r, minimal[key]);
    } else {
      EmptyGroupEntry(rows, minimal, r);
      NewGroupEntry(rows, r, NewGroup(r));
    }
    forall k | k in minimal'
      ensures GroupEntry(rows + [r], k, minimal'[k])
    {
      if k != key {
        assert GroupEntry(rows, k, minimal[k]);
        OneMoreRow(rows, r, k);
      }
    }
    forall k | k !in minimal'
      ensures SumMinimal(rows + [r], k) == 0
    {
      OneMoreRow(rows, r, k);
    }
    forall i | 0 <= i < |rows + [r]|
      ensures MinimalKey((rows + [r])[i]) in minimal'
    {
      assert i < |rows| ==> MinimalKey(rows[i]) in minimal;
    }
  }

  method GroupMinimally(rows: seq<PatternRow>) returns (groups: seq<MinimalRow>)
    ensures MinimalOf(rows, groups)
  {
    var minimal: map<string, MinimalRow> := map[];
    var order: seq<string> := [];
    var i := 0;
    while i < |rows|
      invariant i <= |rows| && Distinct(order)
      invariant forall k :: k in order <==> k in minimal
      invariant TracksRows(rows[..i], minimal)
    {
      var row := rows[i];
      var key := MinimalKey(row);
      TrackRow(rows[..i], minimal, row);
      assert rows[..i + 1] == rows[..i] + [row];
      ghost var next := WithRow(minimal, row);
      var current := if key in minimal then minimal[key] else NewGroup(row);
      if key !in minimal {
        order := order + [key];
      }
      minimal := minimal[key := current.(patterns := current.patterns + {row.pattern},
                                         sampled := current.sampled + row.sampled)];
      assert minimal == next;
      i := i + 1;
    }
    assert rows[..i] == rows;
    groups := seq(|order|, n requires 0 <= n < |order| && order[n] in minimal => minimal[order[n]]);
    CollectedGroups(rows, minimal, order, groups);
  }

  lemma CollectedGroups(rows: seq<PatternRow>, minimal: map<string, MinimalRow>, order: seq<string>,
                        groups: seq<MinimalRow>)
    requires TracksRows(rows, minimal) && Distinct(order) && |groups| == |order|
    requires forall k :: k in order <==> k in minimal
    requires forall i :: 0 <= i < |groups| ==> order[i] in minimal && groups[i] == minimal[order[i]]
    ensures MinimalOf(rows, groups)
  {
    forall i | 0 <= i < |groups|
      ensures GroupEntry(rows, order[i], groups[i])
    {
      assert GroupEntry(rows, order[i], minimal[order[i]]);
    }
    forall i | 0 <= i < |rows|
      ensures HasGroup(groups, MinimalKey(rows[i]))
    {
      var n :| 0 <= n < |order| && order[n] == MinimalKey(rows[i]);
      assert GroupKey(groups[n]) == order[n];
    }
  }

  // ---------------------------------------------------------------------------------------------
  // Both levels
  // ---------------------------------------------------------------------------------------------

  function SumOfSums(keys: seq<string>, rows: seq<PatternRow>): nat {
    if keys == [] then 0 else SumOfSums(keys[..|keys| - 1], rows) + SumMinimal(rows, keys[|keys| - 1])
  }

  lemma {:induction false} AddRow(keys: seq<string>, rows: seq<PatternRow>, r: PatternRow)
    requires Distinct(keys)
    ensures SumOfSums(keys, rows + [r]) == SumOfSums(keys, rows) + if MinimalKey(r) in keys then r.sampled else 0
  {
    assert (rows + [r])[..|rows|] == rows;
    if keys != [] {
      var init, last := keys[..|keys| - 1], keys[|keys| - 1];
      AddRow(init, rows, r);
      assert keys == init + [last];
      assert last !in init;
    }
  }

  lemma {:induction false} SumsAddUp(keys: seq<string>, rows: seq<PatternRow>)
    requires Distinct(keys) && forall r <- rows :: MinimalKey(r) in keys
    ensures SumOfSums(keys, rows) == TotalRows(rows)
    decreases |rows|
  {
    if rows == [] {
      NoRows(keys);
    } else {
      var init, last := rows[..|rows| - 1], rows[|rows| - 1];
      assert rows == init + [last];
      SumsAddUp(keys, init);
      AddRow(keys, init, last);
    }
  }

  lemma {:induction false} NoRows(keys: seq<string>)
    ensures SumOfSums(keys, []) == 0
  {
    if keys != [] {
      NoRows(keys[..|keys| - 1]);
    }
  }

  function GroupKeys(groups: seq<MinimalRow>): seq<string> {
    seq(|groups|, i requires 0 <= i < |groups| => GroupKey(groups[i]))
  }

  lemma {:induction false} GroupTotalIsSum(rows: seq<PatternRow>, groups: seq<MinimalRow>)
    requires forall i :: 0 <= i < |groups| ==> groups[i].sampled == SumMinimal(rows, GroupKey(groups[i]))
    ensures TotalGroups(groups) == SumOfSums(GroupKeys(groups), rows)
  {
    if groups != [] {
      var init := groups[..|groups| - 1];
      GroupTotalIsSum(rows, init);
      assert GroupKeys(groups)[..|groups| - 1] == GroupKeys(init);
    }
  }

  /** Both levels count every sample exactly once. */
  lemma BothLevelsConserve(samples: seq<Sample>, rows: seq<PatternRow>, groups: seq<MinimalRow>)
    requires GroupsOf(samples, rows) && MinimalOf(rows, groups)
    ensures TotalRows(rows) == |samples| && TotalGroups(groups) == |samples|
  {
    var keys := GroupKeys(groups);
    forall i | 0 <= i < |rows|
      ensures MinimalKey(rows[i]) in keys
    {
      assert HasGroup(groups, MinimalKey(rows[i]));
      var n :| 0 <= n < |groups| && GroupKey(groups[n]) == MinimalKey(rows[i]);
      assert keys[n] == MinimalKey(rows[i]);
    }
    PatternGroupsConserve(samples, rows);
    GroupTotalIsSum(rows, groups);
    SumsAddUp(keys, rows);
  }

  ghost predicate AllClean(samples: seq<Sample>) {
    forall i :: 0 <= i < |samples| ==> Clean(samples[i])
  }

  /** Without NUL in the texts, two samples share a pattern group exactly when they agree on all five
      texts. */
  lemma KeysSeparateSamples(a: Sample, b: Sample)
    requires Clean(a) && Clean(b)
    ensures SampleKey(a) == SampleKey(b) <==> Fields(a) == Fields(b) && PatternOf(a) == PatternOf(b)
    ensures Key(Fields(a)) == Key(Fields(b)) <==> Fields(a) == Fields(b)
  {
    PatternIsNulFree(a);
    PatternIsNulFree(b);
    var x, y := Fields(a) + [PatternOf(a)], Fields(b) + [PatternOf(b)];
    JoinIsInjective(x, y);
    JoinIsInjective(Fields(a), Fields(b));
    assert x[..4] == Fields(a) && y[..4] == Fields(b);
  }

  /** A sample belongs to a minimal group exactly when its pattern group does: each minimal group is the
      union of its pattern groups. */
  lemma MinimalGroupIsUnion(samples: seq<Sample>, rows: seq<PatternRow>, s: Sample, key: string)
    requires GroupsOf(samples, rows) && AllClean(samples) && s in samples
    ensures Key(Fields(s)) == key
            <==> exists i :: 0 <= i < |rows| && MinimalKey(rows[i]) == key && RowKey(rows[i]) == SampleKey(s)
  {
    forall i | 0 <= i < |rows| && RowKey(rows[i]) == SampleKey(s)
      ensures MinimalKey(rows[i]) == Key(Fields(s))
    {
      assert Witnessed(samples, rows[i]);
      var n :| 0 <= n < |samples| && Represents(rows[i], samples[n]);
      KeysSeparateSamples(samples[n], s);
    }
    assert HasRow(rows, SampleKey(s));
  }

  /** The masked numbers listed for a minimal group are those of its samples. */
  lemma GroupListsItsPatterns(samples: seq<Sample>, rows: seq<PatternRow>, groups: seq<MinimalRow>, g: MinimalRow,
                              p: string)
    requires GroupsOf(samples, rows) && MinimalOf(rows, groups) && AllClean(samples) && g in groups
    ensures p in g.patterns <==> exists s <- samples :: Key(Fields(s)) == GroupKey(g) && PatternOf(s) == p
  {
    var key := GroupKey(g);
    if p in g.patterns {
      var i :| 0 <= i < |rows| && MinimalKey(rows[i]) == key && rows[i].pattern == p;
      assert Witnessed(samples, rows[i]);
      var n :| 0 <= n < |samples| && Represents(rows[i], samples[n]);
      assert samples[n] in samples;
    }
    if s :| s in samples && Key(Fields(s)) == key && PatternOf(s) == p {
      MinimalGroupIsUnion(samples, rows, s, key);
      var i :| 0 <= i < |rows| && MinimalKey(rows[i]) == key && RowKey(rows[i]) == SampleKey(s);
      assert Witnessed(samples, rows[i]);
      var n :| 0 <= n < |samples| && Represents(rows[i], samples[n]);
      KeysSeparateSamples(samples[n], s);
    }
  }
}
