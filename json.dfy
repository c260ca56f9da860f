/** A small model of `serde_json::Value` and of the one JSON text the core
    writes itself: the compact array of wait-days stored in `level_up_path`. */
module JsonValue {
  import opened Wrappers
  import opened Text

  /** JSON values. Numbers are integers only: floating-point numbers are not
      part of this model. */
  datatype Json =
    | JNull
    | JBool(b: bool)
    | JInt(i: int)
    | JStr(s: string)
    | JArr(items: seq<Json>)
    | JObj(fields: map<string, Json>)

  /** `Value::as_str`. */
  function AsStr(v: Json): (r: Option<string>)
    ensures r.Some? <==> v.JStr?
    ensures r.Some? ==> v == JStr(r.value)
  {
    if v.JStr? then Some(v.s) else None
  }

  /** `Value::get(key)`: a member of an object, and nothing for any other value. */
  function Get(v: Json, key: string): (r: Option<Json>)
    ensures r.Some? <==> v.JObj? && key in v.fields
    ensures r.Some? ==> r.value == v.fields[key]
  {
    if v.JObj? && key in v.fields then Some(v.fields[key]) else None
  }

  /** A JSON array of strings, as `json!(tables)` builds it from a slice of names. */
  function StringArray(xs: seq<string>): (r: Json)
    ensures r.JArr? && |r.items| == |xs|
    ensures forall i :: 0 <= i < |xs| ==> r.items[i] == JStr(xs[i])
  {
    JArr(seq(|xs|, i requires 0 <= i < |xs| => JStr(xs[i])))
  }

  /** The entries of a `serde_json::Map` as it iterates them. Without the
      `preserve_order` feature that map is a `BTreeMap`, so each key occurs
      once and keys come in ascending order. */
  predicate SortedKeys<V>(es: seq<(string, V)>) {
    forall i, j :: 0 <= i < j < |es| ==> LexLess(es[i].0, es[j].0)
  }

  /** In such a map no earlier key is greater than a later one, and no key
      repeats. */
  lemma SortedKeysBefore<V>(es: seq<(string, V)>, j: nat, k: nat)
    requires SortedKeys(es) && j < k < |es|
    ensures !LexLess(es[k].0, es[j].0) && es[j].0 != es[k].0
  {
    LexLessAsymmetric(es[j].0, es[k].0);
  }

  // ---------------------------------------------------------------------
  // The compact JSON form of a list of naturals
  // ---------------------------------------------------------------------

  function Decimals(xs: seq<nat>): (r: seq<string>)
    ensures |r| == |xs|
    ensures forall i :: 0 <= i < |xs| ==> r[i] == NatToString(xs[i])
  {
    seq(|xs|, i requires 0 <= i < |xs| => NatToString(xs[i]))
  }

  /** What `serde_json::to_string` makes of a `Vec` of unsigned integers: the
      decimals joined by commas inside brackets, with no spaces. */
  function NatListToJson(xs: seq<nat>): string {
    "[" + Join(Decimals(xs), ",") + "]"
  }

  function ParseNums(ps: seq<string>): Option<seq<nat>> {
    if ps == [] then Some([])
    else if ps[0] == "" || !AllDigits(ps[0]) then None
    else
      match ParseNums(ps[1..])
      case None => None
      case Some(rest) => Some([DecimalValue(ps[0])] + rest)
  }

  /** Reads a compact JSON array of naturals back: the reference that gives
      meaning to the stored text and to an index lookup into it. */
  function ParseNatListJson(s: string): Option<seq<nat>> {
    if |s| < 2 || s[0] != '[' || s[|s| - 1] != ']' then None
    else if |s| == 2 then Some([])
    else ParseNums(Split(s[1..|s| - 1], ','))
  }

  /** `json_extract(text, '$[k]')` for the array texts above, with SQL NULL as None. */
  function ExtractAt(s: string, k: nat): Option<nat> {
    match ParseNatListJson(s)
    case Some(xs) => if k < |xs| then Some(xs[k]) else None
    case None => None
  }

  lemma {:induction false} ParseNumsDecimals(xs: seq<nat>)
    ensures ParseNums(Decimals(xs)) == Some(xs)
  {
    if xs != [] {
      var ds := Decimals(xs);
      DecimalRoundTrip(xs[0]);
      assert ds[0] == NatToString(xs[0]) && ds[0] != "";
      assert ds[1..] == Decimals(xs[1..]);
      ParseNumsDecimals(xs[1..]);
      assert [xs[0]] + xs[1..] == xs;
    }
  }

  /** Parsing the serialised list gives the list back. */
  lemma NatListJsonRoundTrip(xs: seq<nat>)
    ensures ParseNatListJson(NatListToJson(xs)) == Some(xs)
  {
    var s := NatListToJson(xs);
    var ds := Decimals(xs);
    assert s[1..|s| - 1] == Join(ds, ",");
    if xs != [] {
      forall i | 0 <= i < |ds| ensures ',' !in ds[i] {
        assert AllDigits(ds[i]);
      }
      SplitJoin(ds, ',');
      assert |Join(ds, ",")| > 0 by {
        if |ds| == 1 {
          assert |Join(ds, ",")| == |ds[0]|;
        }
      }
      ParseNumsDecimals(xs);
    }
  }

  /** The text is the decimals joined by commas in brackets, with no spaces. */
  lemma NatListJsonShape(xs: seq<nat>)
    requires xs != []
    ensures var s := NatListToJson(xs);
      |s| >= 3 && s[0] == '[' && s[|s| - 1] == ']' && ' ' !in s
      && Split(s[1..|s| - 1], ',') == Decimals(xs)
  {
    var s := NatListToJson(xs);
    var ds := Decimals(xs);
    assert s[1..|s| - 1] == Join(ds, ",");
    forall i | 0 <= i < |ds| ensures ',' !in ds[i] {
      assert AllDigits(ds[i]);
    }
    SplitJoin(ds, ',');
    JoinNoSpace(ds);
    assert |Join(ds, ",")| > 0 by {
      if |ds| == 1 {
        assert |Join(ds, ",")| == |ds[0]|;
      }
    }
  }

  lemma {:induction false} JoinNoSpace(ds: seq<string>)
    requires forall i :: 0 <= i < |ds| ==> AllDigits(ds[i])
    ensures ' ' !in Join(ds, ",")
  {
    if |ds| > 1 {
      JoinNoSpace(ds[1..]);
      assert AllDigits(ds[0]);
    } else if |ds| == 1 {
      assert AllDigits(ds[0]);
    }
  }

  /** Looking up index `k` of the stored text finds entry `k` of the list, and
      nothing (SQL NULL) past its end. */
  lemma ExtractAtNatList(xs: seq<nat>, k: nat)
    ensures ExtractAt(NatListToJson(xs), k) == if k < |xs| then Some(xs[k]) else None
  {
    NatListJsonRoundTrip(xs);
  }
}
