// The overlay of a configuration profile over a generated JSON document.

module Overlay {
  import opened Results

  datatype Json =
    | Null
    | Boolean(flag: bool)
    | Number(value: real)
    | Text(text: string)
    | Array(items: seq<Json>)
    | Object(fields: map<string, Json>)

  type Fields = map<string, Json>

  type Path = seq<string>

  // --- The overlay ---

  /** What an overriding value makes of the value it meets. */
  function Override(base: Json, override: Json): Json
    decreases base, 1
  {
    if base.Object? && override.Object? then Object(Merge(base.fields, override.fields)) else override
  }

  /** Objects merge, everything else is replaced. */
  function Merge(base: Fields, override: Fields): Fields
    decreases Object(base), 0
  {
    map key | key in base.Keys + override.Keys ::
      if key !in override then base[key]
      else if key !in base then override[key]
      else Override(base[key], override[key])
  }

  method CopyFields(base: Fields) returns (out: Fields)
    ensures out == base
  {
    out := map[];
    var keys := base.Keys;
    while keys != {}
      invariant keys <= base.Keys
      invariant out.Keys == base.Keys - keys
      invariant forall key <- out :: out[key] == base[key]
      decreases keys
    {
      var key :| key in keys;
      out := out[key := base[key]];
      keys := keys - {key};
    }
  }

  /** mergeJSONMaps: a copy of the base, then one assignment per overriding key. */
  method MergeJsonMaps(base: Fields, override: Fields) returns (out: Fields)
    ensures out == Merge(base, override)
    decreases Object(base)
  {
    out := CopyFields(base);
    var keys := override.Keys;
    while keys != {}
      invariant keys <= override.Keys
      invariant out.Keys == base.Keys + (override.Keys - keys)
      invariant forall key <- out ::
          out[key] == if key in override && key !in keys then Merge(base, override)[key] else base[key]
      decreases keys
    {
      var key :| key in keys;
      var merged := override[key];
      if override[key].Object? && key in out && out[key].Object? {
        var fields := MergeJsonMaps(out[key].fields, override[key].fields);
        merged := Object(fields);
      }
      out := out[key := merged];
      keys := keys - {key};
    }
  }

  // --- What is found at a path of the overlaid document ---

  function Node(document: Json, path: Path): Option<Json> {
    if path == [] then Some(document)
    else if document.Object? && path[0] in document.fields then Node(document.fields[path[0]], path[1..])
    else None
  }

  /** The document holds something other than an object on the way to the path. */
  ghost predicate Blocks(document: Json, path: Path) {
    exists i :: 0 <= i < |path| && Node(document, path[..i]).Some? && !Node(document, path[..i]).value.Object?
  }

  lemma BlocksBelow(document: Json, path: Path)
    requires path != [] && document.Object? && path[0] in document.fields
    ensures Blocks(document, path) == Blocks(document.fields[path[0]], path[1..])
  {
    var below := document.fields[path[0]];
    forall i | 0 <= i < |path| - 1
      ensures Node(document, path[..i + 1]) == Node(below, path[1..][..i])
    {
      assert path[..i + 1][1..] == path[1..][..i];
    }
    if Blocks(document, path) {
      var i :| 0 <= i < |path| && Node(document, path[..i]).Some? && !Node(document, path[..i]).value.Object?;
      assert Node(document, path[..i]) == Node(below, path[1..][..i - 1]);
    }
    if Blocks(below, path[1..]) {
      var i :| 0 <= i < |path[1..]| && Node(below, path[1..][..i]).Some?
        && !Node(below, path[1..][..i]).value.Object?;
      assert Node(document, path[..i + 1]) == Node(below, path[1..][..i]);
    }
  }

  /**
    The overlaid document at any path, of documents of any depth: what the override holds there,
    merged with what the base holds there; and what the base holds alone, unless the override
    replaced something above it by a value that is not an object.
    */
  lemma {:induction false} OverlayAtPath(base: Json, override: Json, path: Path)
    requires base.Object? && override.Object?
    ensures Node(Override(base, override), path)
         == match (Node(base, path), Node(override, path))
            case (Some(below), Some(above)) => Some(Override(below, above))
            case (None, Some(above)) => Some(above)
            case (found, None) => if Blocks(override, path) then None else found
  {
    if path == [] { return; }
    var key, rest := path[0], path[1..];
    var merged := Override(base, override);
    assert merged == Object(Merge(base.fields, override.fields));
    if key !in override.fields {
      forall i | 0 < i < |path| ensures Node(override, path[..i]) == None {
        assert path[..i][0] == key;
      }
      assert Node(override, path[..0]) == Some(override);
      return;
    }
    BlocksBelow(override, path);
    assert Node(override, path) == Node(override.fields[key], rest);
    assert Node(merged, path) == Node(merged.fields[key], rest);
    if key in base.fields {
      assert merged.fields[key] == Override(base.fields[key], override.fields[key]);
      var below, above := base.fields[key], override.fields[key];
      assert Node(base, path) == Node(below, rest);
      if below.Object? && above.Object? {
        OverlayAtPath(below, above, rest);
      } else {
        assert Override(below, above) == above;
        Replaced(below, above, rest);
      }
    } else {
      assert Node(base, path) == None;
    }
  }

  lemma Replaced(below: Json, above: Json, path: Path)
    requires !(below.Object? && above.Object?)
    ensures Node(below, path).Some? && Node(above, path).None? ==> Blocks(above, path)
    ensures Node(below, path).Some? && Node(above, path).Some? ==> path == []
  {
    if path != [] && Node(below, path).Some? {
      assert path[..0] == [];
      assert Node(above, path[..0]) == Some(above);
    }
  }

  // --- Laws ---

  lemma EmptyOverride(fields: Fields)
    ensures Merge(fields, map[]) == fields
    ensures Merge(map[], fields) == fields
  {
    assert Merge(fields, map[]).Keys == fields.Keys;
    assert Merge(map[], fields).Keys == fields.Keys;
  }

  /** Everything the covered fields hold is overwritten: each key, and in objects each key again. */
  predicate Covers(cover: Fields, fields: Fields)
    decreases Object(fields)
  {
    forall key <- fields ::
      key in cover && (fields[key].Object? && cover[key].Object? ==> Covers(cover[key].fields, fields[key].fields))
  }

  /** The base leaves no trace exactly when the override covers it. */
  lemma {:induction false} TraceOfBase(base: Fields, override: Fields)
    ensures Merge(base, override) == override <==> Covers(override, base)
    decreases Object(base)
  {
    var merged := Merge(base, override);
    forall key | key in base && key in override && base[key].Object? && override[key].Object?
      ensures merged[key] == override[key] <==> Covers(override[key].fields, base[key].fields)
    {
      assert merged[key] == Override(base[key], override[key]);
      TraceOfBase(base[key].fields, override[key].fields);
    }
    if merged == override {
      forall key | key in base ensures key in override { assert key in merged; }
    }
    if Covers(override, base) {
      assert merged.Keys == override.Keys;
    }
  }

  lemma {:induction false} CoversSelf(fields: Fields)
    ensures Covers(fields, fields)
    decreases Object(fields)
  {
    forall key | key in fields && fields[key].Object?
      ensures Covers(fields[key].fields, fields[key].fields)
    {
      CoversSelf(fields[key].fields);
    }
  }

  lemma MergeWithSelf(fields: Fields)
    ensures Merge(fields, fields) == fields
  {
    CoversSelf(fields);
    TraceOfBase(fields, fields);
  }

  lemma OverrideInObjects(base: Json, override: Json)
    ensures base.Object? && override.Object? ==>
      Override(base, override) == Object(Merge(base.fields, override.fields))
    ensures !(base.Object? && override.Object?) ==> Override(base, override) == override
  {
  }

  /** Overlaying the same document again changes nothing. */
  lemma {:induction false} OverlayTwice(base: Fields, override: Fields)
    ensures Merge(Merge(base, override), override) == Merge(base, override)
    decreases Object(base)
  {
    var once := Merge(base, override);
    var twice := Merge(once, override);
    assert twice.Keys == once.Keys;
    forall key | key in once ensures twice[key] == once[key] {
      if key in override {
        OverrideInObjects(once[key], override[key]);
        if key in base { OverrideInObjects(base[key], override[key]); }
        if key in base && base[key].Object? && override[key].Object? {
          OverlayTwice(base[key].fields, override[key].fields);
        } else if override[key].Object? {
          MergeWithSelf(override[key].fields);
        }
      }
    }
  }

  /**
    No object of the first layer is restored by the third after the second replaced it by something
    else, except where the third covers it anyway.
    */
  predicate Associates(a: Fields, b: Fields, c: Fields)
    decreases Object(a)
  {
    forall key <- a | key in b && key in c && a[key].Object? && c[key].Object? ::
      if b[key].Object? then Associates(a[key].fields, b[key].fields, c[key].fields)
      else Covers(c[key].fields, a[key].fields)
  }

  /** Exactly when overlays may be grouped either way. */
  lemma {:induction false} GroupingOverlays(a: Fields, b: Fields, c: Fields)
    ensures Merge(Merge(a, b), c) == Merge(a, Merge(b, c)) <==> Associates(a, b, c)
    decreases Object(a)
  {
    var left, right := Merge(Merge(a, b), c), Merge(a, Merge(b, c));
    assert left.Keys == right.Keys;
    forall key | key in left
      ensures left[key] == right[key]
        <==> (key in a && key in b && key in c && a[key].Object? && c[key].Object? ==>
                if b[key].Object? then Associates(a[key].fields, b[key].fields, c[key].fields)
                else Covers(c[key].fields, a[key].fields))
    {
      GroupingAt(a, b, c, key);
      if key in a && key in b && key in c && a[key].Object? && c[key].Object? {
        if b[key].Object? {
          GroupingOverlays(a[key].fields, b[key].fields, c[key].fields);
        } else {
          TraceOfBase(a[key].fields, c[key].fields);
        }
      }
    }
    if left == right {
      forall key | key in a && key in b && key in c && a[key].Object? && c[key].Object?
        ensures if b[key].Object? then Associates(a[key].fields, b[key].fields, c[key].fields)
                else Covers(c[key].fields, a[key].fields)
      {
        assert key in left;
      }
    }
  }

  lemma GroupingAt(a: Fields, b: Fields, c: Fields, key: string)
    requires key in a || key in b || key in c
    ensures var left, right := Merge(Merge(a, b), c), Merge(a, Merge(b, c));
            if key in a && key in b && key in c then
              left[key] == Override(Override(a[key], b[key]), c[key])
              && right[key] == Override(a[key], Override(b[key], c[key]))
            else left[key] == right[key]
  {
  }

  /** A path where the second layer holds something else than an object between two objects. */
  ghost predicate ClashesAt(a: Json, b: Json, c: Json, path: Path) {
    Node(a, path).Some? && Node(a, path).value.Object?
    && Node(b, path).Some? && !Node(b, path).value.Object?
    && Node(c, path).Some? && Node(c, path).value.Object?
  }

  /** The condition in terms of paths: without such a path overlays may be grouped either way. */
  lemma {:induction false} GroupingWithoutClash(a: Fields, b: Fields, c: Fields)
    requires forall path :: !ClashesAt(Object(a), Object(b), Object(c), path)
    ensures Associates(a, b, c)
    ensures Merge(Merge(a, b), c) == Merge(a, Merge(b, c))
    decreases Object(a)
  {
    forall key | key in a && key in b && key in c && a[key].Object? && c[key].Object?
      ensures b[key].Object? && Associates(a[key].fields, b[key].fields, c[key].fields)
    {
      forall path ensures ClashesAt(a[key], b[key], c[key], path)
                       == ClashesAt(Object(a), Object(b), Object(c), [key] + path)
      {
        assert ([key] + path)[1..] == path;
      }
      assert !ClashesAt(a[key], b[key], c[key], []);
      GroupingWithoutClash(a[key].fields, b[key].fields, c[key].fields);
    }
    GroupingOverlays(a, b, c);
  }

  /** Overlays do not associate in general: what the second layer nulled, the third can bring back. */
  lemma GroupingMatters()
    ensures var a: Fields := map["k" := Object(map["x" := Null])];
            var b: Fields := map["k" := Null];
            var c: Fields := map["k" := Object(map[])];
            Merge(Merge(a, b), c) != Merge(a, Merge(b, c))
  {
    var a: Fields := map["k" := Object(map["x" := Null])];
    var b: Fields := map["k" := Null];
    var c: Fields := map["k" := Object(map[])];
    assert "x" in a["k"].fields && "x" !in c["k"].fields;
    assert !Covers(c["k"].fields, a["k"].fields);
    assert "k" in a && "k" in b && "k" in c;
    GroupingOverlays(a, b, c);
  }
}
