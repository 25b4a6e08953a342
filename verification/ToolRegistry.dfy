/** Versioned tool contracts: append-only generations per tool name, resolved newest first. */
module ToolRegistry {
  import opened Wrappers
  import opened JsonText

  datatype GenerationPin = GenerationPin(version: Text, impl: Text)

  type Generations = map<Text, seq<GenerationPin>>

  const STAR: Text := [42]
  const LATEST: Text := [108, 97, 116, 101, 115, 116]
  const DOT: CodeUnit := 46
  const DOT_X: Text := [46, 120]

  /** The part before the first dot. */
  function FirstSegment(version: Text): (r: Text)
    ensures r <= version && DOT !in r
    ensures r == version || version[|r|] == DOT
  {
    if version == [] || version[0] == DOT then [] else [version[0]] + FirstSegment(version[1..])
  }

  predicate EndsWith(t: Text, end: Text) {
    |end| <= |t| && t[|t| - |end|..] == end
  }

  predicate MatchesRange(version: Text, range: Text) {
    if range == STAR || range == [] || range == LATEST then true
    else if EndsWith(range, DOT_X) then FirstSegment(version) == range[..|range| - 2]
    else version == range
  }

  /** What a range admits: any version for `*`, latest or nothing at all; for a series written n.x, n itself and
      whatever goes on with a dot after n; else the version it names. */
  predicate Satisfies(version: Text, range: Text) {
    || range == STAR || range == LATEST || range == []
    || (exists n | 0 <= n <= |range| :: range == range[..n] + DOT_X && InSeries(version, range[..n]))
    || (!EndsWith(range, DOT_X) && version == range)
  }

  predicate InSeries(version: Text, series: Text) {
    DOT !in series && (version == series || series + [DOT] <= version)
  }

  lemma RangeMeaning(version: Text, range: Text)
    ensures MatchesRange(version, range) <==> Satisfies(version, range)
  {
    forall m | 0 <= m <= |range| && range == range[..m] + DOT_X ensures m == |range| - 2 && EndsWith(range, DOT_X) {
      SeriesOf(range, m);
    }
    if EndsWith(range, DOT_X) {
      assert range == range[..|range| - 2] + DOT_X;
      SeriesRange(version, range[..|range| - 2]);
    }
  }

  lemma SeriesOf(range: Text, m: nat)
    requires m <= |range| && range == range[..m] + DOT_X
    ensures m == |range| - 2 && EndsWith(range, DOT_X)
  {
    assert range[m..] == DOT_X;
  }

  /** An "n.x" range matches n itself and everything that goes on with a dot, whatever follows it; a series
      that holds a dot itself, as in "1.2.x", matches no version at all. */
  lemma SeriesRange(version: Text, series: Text)
    ensures MatchesRange(version, series + DOT_X) <==> DOT !in series && (version == series || series + [DOT] <= version)
  {
    var range := series + DOT_X;
    assert |range| >= 2 && range[|range| - 2..] == DOT_X && range[..|range| - 2] == series;
    assert LATEST[|LATEST| - 1] != DOT_X[1] && range[|range| - 1] == DOT_X[1];
    if DOT !in series {
      SegmentIs(version, series);
    }
  }

  lemma {:induction false} SegmentIs(version: Text, series: Text)
    requires DOT !in series
    ensures FirstSegment(version) == series <==> version == series || series + [DOT] <= version
  {
    if version != [] && version[0] != DOT && series != [] {
      SegmentIs(version[1..], series[1..]);
      assert series == [series[0]] + series[1..] && version == [version[0]] + version[1..];
      assert series + [DOT] == [series[0]] + (series[1..] + [DOT]);
    }
  }

  function Published(g: Generations, name: Text, version: Text, impl: Text): Generations {
    g[name := PinsAt(g, name) + [GenerationPin(version, impl)]]
  }

  function PinsAt(g: Generations, name: Text): seq<GenerationPin> {
    if name in g then g[name] else []
  }

  /** The last published generation in range. */
  function Newest(pins: seq<GenerationPin>, range: Text): Option<GenerationPin> {
    if pins == [] then None
    else
      var n := |pins| - 1;
      if MatchesRange(pins[n].version, range) then Some(pins[n]) else Newest(pins[..n], range)
  }

  ghost predicate NewestAt(pins: seq<GenerationPin>, range: Text, i: nat) {
    && i < |pins| && MatchesRange(pins[i].version, range)
    && forall j | i < j < |pins| :: !MatchesRange(pins[j].version, range)
  }

  lemma {:induction false} NewestIs(pins: seq<GenerationPin>, range: Text)
    ensures Newest(pins, range).None? <==> forall i | 0 <= i < |pins| :: !MatchesRange(pins[i].version, range)
    ensures Newest(pins, range).Some? ==> exists i: nat :: NewestAt(pins, range, i) && pins[i] == Newest(pins, range).value
  {
    hide MatchesRange;
    if pins != [] {
      var n := |pins| - 1;
      if MatchesRange(pins[n].version, range) {
        assert NewestAt(pins, range, n);
      } else {
        NewestIs(pins[..n], range);
        assert Newest(pins, range) == Newest(pins[..n], range);
        hide Newest;
        assert forall i | 0 <= i < n :: pins[..n][i] == pins[i];
        if Newest(pins, range).Some? {
          var i: nat :| NewestAt(pins[..n], range, i) && pins[..n][i] == Newest(pins[..n], range).value;
          NewestLater(pins, range, i);
        }
      }
    }
  }

  lemma NewestLater(pins: seq<GenerationPin>, range: Text, i: nat)
    requires pins != [] && NewestAt(pins[..|pins| - 1], range, i) && !MatchesRange(pins[|pins| - 1].version, range)
    ensures NewestAt(pins, range, i)
  {
    hide MatchesRange;
    forall j | i < j < |pins| ensures !MatchesRange(pins[j].version, range) {
      if j < |pins| - 1 {
        assert pins[..|pins| - 1][j] == pins[j];
      }
    }
  }

  /** The scan from the newest generation down. */
  lemma NewestDown(pins: seq<GenerationPin>, range: Text)
    ensures Newest(pins[..0], range) == None
    ensures forall i | 0 <= i < |pins| ::
              Newest(pins[..i + 1], range) == if MatchesRange(pins[i].version, range) then Some(pins[i]) else Newest(pins[..i], range)
  {
    hide MatchesRange;
    forall i | 0 <= i < |pins|
      ensures Newest(pins[..i + 1], range) == if MatchesRange(pins[i].version, range) then Some(pins[i]) else Newest(pins[..i], range)
    {
      assert pins[..i + 1][..i] == pins[..i];
    }
  }

  class ToolRegistry {
    var generations: Generations

    constructor ()
      ensures generations == map[]
    {
      generations := map[];
    }

    method Publish(name: Text, version: Text, impl: Text)
      modifies this
      ensures generations == Published(old(generations), name, version, impl)
    {
      var list := if name in generations then generations[name] else [];
      generations := generations[name := list + [GenerationPin(version, impl)]];
    }

    /** The scan runs from the newest generation down. */
    method Resolve(name: Text, range: Text) returns (pin: Option<GenerationPin>)
      ensures pin == Newest(PinsAt(generations, name), range)
      ensures pin.None? <==> forall i | 0 <= i < |PinsAt(generations, name)| :: !MatchesRange(PinsAt(generations, name)[i].version, range)
    {
      if name !in generations {
        return None;
      }
      var list := generations[name];
      NewestIs(list, range);
      NewestDown(list, range);
      hide MatchesRange, NewestAt, Newest;
      assert list[..|list|] == list;
      var i := |list| - 1;
      while i >= 0
        invariant -1 <= i < |list|
        invariant Newest(list, range) == Newest(list[..i + 1], range)
      {
        if MatchesRange(list[i].version, range) {
          return Some(list[i]);
        }
        i := i - 1;
      }
      pin := None;
    }
  }
}
