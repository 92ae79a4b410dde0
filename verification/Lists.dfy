/** Comma-separated lists: splitCSV and normalizeCSV of internal/config/config.go. */
module Lists {
  import opened Text

  function SplitList(value: string): seq<string> {
    if TrimSpace(value) == "" then [] else Clean(Split(value, ','))
  }

  method SplitCSV(value: string) returns (out: seq<string>)
    ensures out == SplitList(value)
  {
    if TrimSpace(value) == "" {
      return [];
    }
    var parts := Split(value, ',');
    out := [];
    for i := 0 to |parts|
      invariant out == Clean(parts[..i])
    {
      CleanStep(parts, i);
      var part := TrimSpace(parts[i]);
      if part != "" {
        out := out + [part];
      }
    }
    assert parts[..|parts|] == parts;
  }

  predicate Item(s: string) { s != "" && Trimmed(s) }

  /** Splitting undoes joining exactly when no item contains a comma. */
  lemma SplitListInvertsJoinIff(items: seq<string>)
    requires forall i :: 0 <= i < |items| ==> Item(items[i])
    ensures SplitList(Join(items, ',')) == items <==> forall i :: 0 <= i < |items| ==> ',' !in items[i]
  {
    var text := Join(items, ',');
    if items == [] {
      TrimmedFixed("");
    } else {
      if forall i :: 0 <= i < |items| ==> ',' !in items[i] {
        SplitJoin(items, ',');
        CleanFixed(items);
        JoinNotBlank(items);
      }
      SplitListHasNoComma(text);
    }
  }

  lemma SplitListHasNoComma(value: string)
    ensures forall i :: 0 <= i < |SplitList(value)| ==> Item(SplitList(value)[i]) && ',' !in SplitList(value)[i]
  {
    var parts := Split(value, ',');
    forall i | 0 <= i < |parts| ensures ',' !in parts[i] { SplitHasNoSeparator(value, ',', i); }
    CleanItems(parts, ',');
  }

  lemma JoinNotBlank(items: seq<string>)
    requires items != [] && Item(items[0])
    ensures TrimSpace(Join(items, ',')) != ""
  {
    var text := Join(items, ',');
    assert text[0] == items[0][0];
    assert TrimLeft(text) == text;
    FirstStays(text);
  }

  lemma {:induction false} FirstStays(s: string)
    requires s != "" && !IsSpace(s[0])
    ensures TrimRight(s) != ""
  {
    if IsSpace(s[|s| - 1]) { FirstStays(s[..|s| - 1]); }
  }

  // ---------------------------------------------------------------- normalizeCSV

  /** The trimmed values, without the empty ones and without repetitions, in the order they first occur. */
  function Normalized(values: seq<string>): seq<string> {
    if values == [] then []
    else
      var before, item := Normalized(values[..|values| - 1]), TrimSpace(values[|values| - 1]);
      if item == "" || item in before then before else before + [item]
  }

  method NormalizeCSV(values: seq<string>) returns (out: seq<string>)
    ensures out == Normalized(values)
  {
    out := [];
    var seen: set<string> := {};
    for i := 0 to |values|
      invariant out == Normalized(values[..i]) && forall s :: s in seen <==> s in out
    {
      assert values[..i + 1][..i] == values[..i];
      var item := TrimSpace(values[i]);
      if item != "" && item !in seen {
        seen := seen + {item};
        out := out + [item];
      }
    }
    assert values[..|values|] == values;
  }

  predicate Distinct(items: seq<string>) { forall i, j :: 0 <= i < j < |items| ==> items[i] != items[j] }

  predicate IsNormal(items: seq<string>) { Distinct(items) && forall i :: 0 <= i < |items| ==> Item(items[i]) }

  /** The result holds the trimmed non-empty values, each once. */
  lemma NormalizedMeans(values: seq<string>)
    ensures IsNormal(Normalized(values))
    ensures forall s :: s in Normalized(values) <==> s != "" && Mentioned(values, s)
  {
    NormalizedIsNormal(values);
    forall s ensures s in Normalized(values) <==> s != "" && Mentioned(values, s) { NormalizedHolds(values, s); }
  }

  ghost predicate Mentioned(values: seq<string>, s: string) { exists i :: 0 <= i < |values| && TrimSpace(values[i]) == s }

  lemma MentionedSnoc(values: seq<string>, v: string, s: string)
    ensures Mentioned(values + [v], s) <==> Mentioned(values, s) || TrimSpace(v) == s
  {
    var longer := values + [v];
    assert longer[|values|] == v;
    if Mentioned(values, s) {
      var i :| 0 <= i < |values| && TrimSpace(values[i]) == s;
      assert longer[i] == values[i];
    }
  }

  lemma {:induction false} NormalizedHolds(values: seq<string>, s: string)
    ensures s in Normalized(values) <==> s != "" && Mentioned(values, s)
  {
    if values != [] {
      var n := |values| - 1;
      NormalizedHolds(values[..n], s);
      MentionedSnoc(values[..n], values[n], s);
      assert values == values[..n] + [values[n]];
    }
  }

  lemma {:induction false} NormalizedIsNormal(values: seq<string>)
    ensures IsNormal(Normalized(values))
  {
    if values != [] {
      var n := |values| - 1;
      NormalizedIsNormal(values[..n]);
      TrimSpaceTrims(values[n]);
    }
  }

  /** Normalising changes nothing exactly on the lists it produces. */
  lemma {:induction false} NormalizedFixedIff(items: seq<string>)
    ensures Normalized(items) == items <==> IsNormal(items)
  {
    NormalizedIsNormal(items);
    if IsNormal(items) { NormalIsFixed(items); }
  }

  lemma {:induction false} NormalIsFixed(items: seq<string>)
    requires IsNormal(items)
    ensures Normalized(items) == items
  {
    if items != [] {
      var n := |items| - 1;
      NormalIsFixed(items[..n]);
      TrimmedFixed(items[n]);
      assert items == items[..n] + [items[n]];
    }
  }
}
