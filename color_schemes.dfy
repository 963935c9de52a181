/**
 * src/shared/color-schemes.ts: the history entry value object, its
 * factory, and the format-id guard.  The random id and the clock reading
 * the factory takes from its environment are parameters here.
 */
module ColorSchemes {
  import opened Json
  import opened ColorEngine

  /** `HistoryEntry`. */
  datatype HistoryEntry = HistoryEntry(
    id: string,
    createdAt: string,
    sourceHex: string,
    formatAtPick: FormatId,
    valueAtPick: string,
    values: FormatSnapshot)

  /** What every entry the factory builds satisfies. */
  predicate WellFormed(e: HistoryEntry) {
    && e.valueAtPick == e.values.Get(e.formatAtPick)
    && IsNormalizedHex(e.sourceHex)
  }

  /** `DEFAULT_SOURCE_HEX`, the fallback should normalisation throw. */
  const DefaultSourceHex: string := "#000000"

  /**
   * `normalizeSourceHex`.  `normalizeHex` throws only when handed a value
   * that is not a string, which the typed parameter rules out, so the
   * fallback to `DefaultSourceHex` is never taken.
   */
  function NormalizeSourceHex(sourceHex: string): (r: string)
    ensures r == NormalizeHex(sourceHex)
    ensures IsNormalizedHex(r)
  {
    NormalizeHex(sourceHex)
  }

  /** The fallback is itself in normal form. */
  lemma DefaultSourceHexNormalized()
    ensures IsNormalizedHex(DefaultSourceHex)
    ensures NormalizeHex(DefaultSourceHex) == DefaultSourceHex
  {
    assert Ascii.IsTrimmed(DefaultSourceHex);
    NormalizeHexOfNormalized(DefaultSourceHex);
  }

  /**
   * `createHistoryEntry`: the colour is normalised, its snapshot covers
   * every format, and the value at pick is the snapshot's entry for the
   * chosen format.
   */
  function CreateHistoryEntry(id: string, createdAt: string, sourceHex: string,
                              formatAtPick: FormatId, render: Renderer): (e: HistoryEntry)
    ensures e.id == id && e.createdAt == createdAt
    ensures e.sourceHex == NormalizeHex(sourceHex)
    ensures e.formatAtPick == formatAtPick
    ensures forall f :: e.values.Get(f) == render(e.sourceHex, f)
    ensures e.valueAtPick == e.values.Get(formatAtPick)
    ensures e.sourceHex[0] == '#'
    ensures WellFormed(e)
  {
    var normalizedHex := NormalizeSourceHex(sourceHex);
    var values := GetHexFormats(normalizedHex, render);
    HistoryEntry(id, createdAt, normalizedHex, formatAtPick, values.Get(formatAtPick), values)
  }

  /** Entries built from the same colour and format differ at most in id and timestamp. */
  lemma CreateHistoryEntryDeterministic(id1: string, at1: string, id2: string, at2: string,
                                        sourceHex: string, formatAtPick: FormatId, render: Renderer)
    ensures var e1 := CreateHistoryEntry(id1, at1, sourceHex, formatAtPick, render);
            var e2 := CreateHistoryEntry(id2, at2, sourceHex, formatAtPick, render);
            e1.(id := id2, createdAt := at2) == e2
  {
    var e1 := CreateHistoryEntry(id1, at1, sourceHex, formatAtPick, render);
    var e2 := CreateHistoryEntry(id2, at2, sourceHex, formatAtPick, render);
    forall i | 0 <= i < |FormatIds| ensures e1.values.Get(FormatIds[i]) == e2.values.Get(FormatIds[i]) {}
    SnapshotExtensionality(e1.values, e2.values);
  }

  /** Two spellings of one colour that normalise alike give the same entry. */
  lemma CreateHistoryEntryNormalizes(id: string, createdAt: string, s: string, t: string,
                                     formatAtPick: FormatId, render: Renderer)
    requires NormalizeHex(s) == NormalizeHex(t)
    ensures CreateHistoryEntry(id, createdAt, s, formatAtPick, render)
         == CreateHistoryEntry(id, createdAt, t, formatAtPick, render)
  {
  }

  /**
   * `isColorFormatId`: a string that is one of the eight ids.  Matching is
   * exact, so neither a label such as "HEX" nor the empty string passes.
   */
  function IsColorFormatId(value: Json): (r: bool)
    ensures r <==> value.JString? && exists f :: IdString(f) == value.s
    ensures r <==> value.JString? && exists i :: 0 <= i < |FormatIds| && IdString(FormatIds[i]) == value.s
  {
    FormatCatalogue();
    if value.JString? then
      var f := FormatIdOf(value.s);
      if f.Some? then
        assert FormatIds[FormatIdIndex(f.value)] == f.value;
        true
      else false
    else false
  }

  /** The position of an id in the catalogue. */
  function FormatIdIndex(f: FormatId): (i: nat)
    ensures i < |FormatIds| && FormatIds[i] == f
  {
    match f
    case Hex => 0
    case Rgb => 1
    case Hsl => 2
    case Oklch => 3
    case Oklab => 4
    case Lab => 5
    case Lch => 6
    case P3 => 7
  }

  lemma IsColorFormatIdExamples()
    ensures IsColorFormatId(JString("hex"))
    ensures IsColorFormatId(JString("p3"))
    ensures !IsColorFormatId(JString("HEX"))
    ensures !IsColorFormatId(JString(""))
    ensures !IsColorFormatId(JNull)
    ensures !IsColorFormatId(JNumber(0.0))
    ensures !IsColorFormatId(JArray([JString("hex")]))
  {
    assert IdString(Hex) == "hex";
    assert IdString(P3) == "p3";
    assert FormatIdOf("HEX").None?;
    assert FormatIdOf("").None?;
  }

  /** Every id's own string passes the guard. */
  lemma IsColorFormatIdOfId(f: FormatId)
    ensures IsColorFormatId(JString(IdString(f)))
  {
  }
}
