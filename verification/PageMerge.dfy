/** Merging the pages of one document and sorting documents by direction (routes/ocr_export_routes.py). */
module PageMerge {
  import opened Common
  import opened Strings

  /** A JSON value; a number keeps its text and whether it is zero, an object its keys in order. */
  datatype Json =
    | Null
    | Bool(b: bool)
    | Number(text: string, zero: bool)
    | String(s: string)
    | List(items: seq<Json>)
    | Object(fields: seq<(string, Json)>)

  predicate Truthy(v: Json) {
    match v
    case Null => false
    case Bool(b) => b
    case Number(_, zero) => !zero
    case String(s) => s != ""
    case List(items) => items != []
    case Object(fields) => fields != []
  }

  /** Null and the empty string, list and object; not False and not zero. */
  predicate Blank(v: Json) {
    v == Null || v == String("") || v == List([]) || v == Object([])
  }

  function Lookup(fields: seq<(string, Json)>, key: string): Option<Json> {
    if fields == [] then None
    else if fields[|fields| - 1].0 == key then Some(fields[|fields| - 1].1)
    else Lookup(fields[..|fields| - 1], key)
  }

  const ITEMS := "items"

  // --- merging ---

  /** The fields of a page, none if it has no usable ones. */
  function FieldsOf(page: Json): seq<(string, Json)> {
    if !page.Object? then [] else
    match Lookup(page.fields, "fields")
    case Some(Object(fields)) => fields
    case _ => []
  }

  datatype Merge = Merge(fields: map<string, Json>, items: seq<Json>)

  const EMPTY := Merge(map[], [])

  /** One turn of the inner loop. */
  function Take(m: Merge, key: string, v: Json): Merge {
    if key == ITEMS then m.(items := m.items + (if v.List? then v.items else []))
    else if Blank(v) || (key in m.fields && Truthy(m.fields[key])) then m
    else m.(fields := m.fields[key := v])
  }

  function TakeAll(m: Merge, fields: seq<(string, Json)>): Merge {
    if fields == [] then m
    else Take(TakeAll(m, fields[..|fields| - 1]), fields[|fields| - 1].0, fields[|fields| - 1].1)
  }

  /** The fields of all pages, one after the other. */
  function AllFields(pages: seq<Json>): seq<(string, Json)> {
    if pages == [] then [] else AllFields(pages[..|pages| - 1]) + FieldsOf(pages[|pages| - 1])
  }

  function Finish(m: Merge): map<string, Json> {
    if m.items == [] then m.fields else m.fields[ITEMS := List(m.items)]
  }

  function MergePages(pages: seq<Json>): map<string, Json> {
    Finish(TakeAll(EMPTY, AllFields(pages)))
  }

  lemma {:induction false} TakeAllAppend(m: Merge, a: seq<(string, Json)>, b: seq<(string, Json)>)
    ensures TakeAll(m, a + b) == TakeAll(TakeAll(m, a), b)
  {
    if b == [] {
      assert a + b == a;
    } else {
      TakeAllAppend(m, a, b[..|b| - 1]);
      assert (a + b)[..|a + b| - 1] == a + b[..|b| - 1];
    }
  }

  lemma TakeOneMore(m: Merge, fields: seq<(string, Json)>, i: nat)
    requires i < |fields|
    ensures TakeAll(m, fields[..i + 1]) == Take(TakeAll(m, fields[..i]), fields[i].0, fields[i].1)
  {
    assert fields[..i + 1][..i] == fields[..i];
  }

  method MergePagesToFields(pages: Json) returns (merged: map<string, Json>)
    ensures merged == if pages.List? then MergePages(pages.items) else map[]
  {
    merged := map[];
    if !Truthy(pages) || !pages.List? {
      return;
    }
    var items: seq<Json> := [];
    for p := 0 to |pages.items|
      invariant Merge(merged, items) == TakeAll(EMPTY, AllFields(pages.items[..p]))
    {
      ghost var done := AllFields(pages.items[..p]);
      var page := pages.items[p];
      assert pages.items[..p + 1][..p] == pages.items[..p];
      assert AllFields(pages.items[..p + 1]) == done + FieldsOf(page);
      TakeAllAppend(EMPTY, done, FieldsOf(page));
      if page.Object? {
        var f := Lookup(page.fields, "fields");
        if f.Some? && f.value.Object? {
          var fields := f.value.fields;
          for i := 0 to |fields|
            invariant Merge(merged, items) == TakeAll(TakeAll(EMPTY, done), fields[..i])
          {
            var (k, v) := fields[i];
            TakeOneMore(TakeAll(EMPTY, done), fields, i);
            if k == ITEMS {
              if v.List? {
                items := items + v.items;
              }
            } else if !Blank(v) {
              if !(k in merged && Truthy(merged[k])) {
                merged := merged[k := v];
              }
            }
          }
          assert fields[..|fields|] == fields;
        }
      }
    }
    assert pages.items[..|pages.items|] == pages.items;
    if items != [] {
      merged := merged[ITEMS := List(items)];
    }
  }

  // --- what the merge means ---

  /** The values given for a key, blank ones left out. */
  function Given(fields: seq<(string, Json)>, key: string): seq<Json> {
    if fields == [] then [] else
    var (k, v) := fields[|fields| - 1];
    Given(fields[..|fields| - 1], key) + (if k == key && !Blank(v) then [v] else [])
  }

  function AllItems(fields: seq<(string, Json)>): seq<Json> {
    if fields == [] then [] else
    var (k, v) := fields[|fields| - 1];
    AllItems(fields[..|fields| - 1]) + (if k == ITEMS && v.List? then v.items else [])
  }

  /** The first truthy value, else the last one, else none. */
  predicate Wins(values: seq<Json>, winner: Option<Json>) {
    match winner
    case None => values == []
    case Some(v) =>
      if forall i :: 0 <= i < |values| ==> !Truthy(values[i]) then values != [] && v == values[|values| - 1]
      else exists i :: 0 <= i < |values| && v == values[i] && Truthy(v) && forall j :: 0 <= j < i ==> !Truthy(values[j])
  }

  function Get(m: map<string, Json>, key: string): Option<Json> {
    if key in m then Some(m[key]) else None
  }

  lemma WinsMore(values: seq<Json>, winner: Option<Json>, v: Json)
    requires Wins(values, winner)
    ensures Wins(values + [v], if winner.Some? && Truthy(winner.value) then winner else Some(v))
  {
    if winner.Some? && Truthy(winner.value) {
      var i :| 0 <= i < |values| && winner.value == values[i] && Truthy(winner.value)
        && forall j :: 0 <= j < i ==> !Truthy(values[j]);
      assert (values + [v])[i] == values[i];
    } else if Truthy(v) {
      assert forall i :: 0 <= i < |values| ==> !Truthy(values[i]);
      assert (values + [v])[|values|] == v;
    }
  }

  lemma {:induction false} TakenWins(fields: seq<(string, Json)>, key: string)
    ensures ITEMS !in TakeAll(EMPTY, fields).fields
    ensures key != ITEMS ==> Wins(Given(fields, key), Get(TakeAll(EMPTY, fields).fields, key))
    ensures TakeAll(EMPTY, fields).items == AllItems(fields)
  {
    if fields != [] {
      var rest := fields[..|fields| - 1];
      var (k, v) := fields[|fields| - 1];
      TakenWins(rest, key);
      if k == key && key != ITEMS && !Blank(v) {
        WinsMore(Given(rest, key), Get(TakeAll(EMPTY, rest).fields, key), v);
      } else {
        assert Given(rest, key) + [] == Given(rest, key);
      }
    }
  }

  /**
   Each key gets its first truthy value over all pages in order, else its last non-blank one, else is
   absent; the item lists are joined.
   */
  lemma MergeMeans(pages: seq<Json>, key: string)
    ensures key != ITEMS ==> Wins(Given(AllFields(pages), key), Get(MergePages(pages), key))
    ensures Get(MergePages(pages), ITEMS)
      == (var items := AllItems(AllFields(pages)); if items == [] then None else Some(List(items)))
  {
    TakenWins(AllFields(pages), key);
  }

  // --- merging in parts ---

  function OrElse(a: Option<Json>, b: Option<Json>): Option<Json> {
    if b.None? || (a.Some? && Truthy(a.value)) then a else b
  }

  /** Two merges into one: for each key the first if it is truthy or the only one, the item lists joined. */
  function Combine(a: Merge, b: Merge): Merge {
    Merge(map k | k in a.fields.Keys + b.fields.Keys :: OrElse(Get(a.fields, k), Get(b.fields, k)).value,
          a.items + b.items)
  }

  lemma CombineGet(a: Merge, b: Merge, key: string)
    ensures Get(Combine(a, b).fields, key) == OrElse(Get(a.fields, key), Get(b.fields, key))
  {
  }

  lemma SameMaps(a: map<string, Json>, b: map<string, Json>)
    requires forall key :: Get(a, key) == Get(b, key)
    ensures a == b
  {
    forall key ensures key in a <==> key in b {
      assert Get(a, key) == Get(b, key);
    }
    forall key | key in a ensures a[key] == b[key] {
      assert Get(a, key) == Get(b, key);
    }
  }

  lemma CombineAssociative(a: Merge, b: Merge, c: Merge)
    ensures Combine(Combine(a, b), c) == Combine(a, Combine(b, c))
  {
    forall key ensures Get(Combine(Combine(a, b), c).fields, key) == Get(Combine(a, Combine(b, c)).fields, key) {
      CombineGet(Combine(a, b), c, key);
      CombineGet(a, b, key);
      CombineGet(a, Combine(b, c), key);
      CombineGet(b, c, key);
    }
    SameMaps(Combine(Combine(a, b), c).fields, Combine(a, Combine(b, c)).fields);
  }

  lemma CombineTake(a: Merge, b: Merge, k: string, v: Json)
    ensures Take(Combine(a, b), k, v) == Combine(a, Take(b, k, v))
  {
    if k == ITEMS {
      SameMaps(Take(Combine(a, b), k, v).fields, Combine(a, Take(b, k, v)).fields);
    } else {
      forall key ensures Get(Take(Combine(a, b), k, v).fields, key) == Get(Combine(a, Take(b, k, v)).fields, key) {
        CombineGet(a, b, key);
        CombineGet(a, Take(b, k, v), key);
      }
      SameMaps(Take(Combine(a, b), k, v).fields, Combine(a, Take(b, k, v)).fields);
    }
  }

  lemma {:induction false} TakeIsCombine(m: Merge, fields: seq<(string, Json)>)
    ensures TakeAll(m, fields) == Combine(m, TakeAll(EMPTY, fields))
  {
    if fields == [] {
      SameMaps(m.fields, Combine(m, EMPTY).fields);
    } else {
      TakeIsCombine(m, fields[..|fields| - 1]);
      CombineTake(m, TakeAll(EMPTY, fields[..|fields| - 1]), fields[|fields| - 1].0, fields[|fields| - 1].1);
    }
  }

  lemma {:induction false} AllFieldsAppend(p: seq<Json>, q: seq<Json>)
    ensures AllFields(p + q) == AllFields(p) + AllFields(q)
  {
    if q == [] {
      assert p + q == p;
    } else {
      var rest := q[..|q| - 1];
      AllFieldsAppend(p, rest);
      assert (p + q)[..|p + q| - 1] == p + rest && (p + q)[|p + q| - 1] == q[|q| - 1];
      assert AllFields(p) + (AllFields(rest) + FieldsOf(q[|q| - 1]))
        == AllFields(p) + AllFields(rest) + FieldsOf(q[|q| - 1]);
    }
  }

  function Unfinished(pages: seq<Json>): Merge {
    TakeAll(EMPTY, AllFields(pages))
  }

  /** Pages may be merged in parts: the merge of all is the combination of the merges of the parts. */
  lemma MergeInParts(p: seq<Json>, q: seq<Json>)
    ensures MergePages(p + q) == Finish(Combine(Unfinished(p), Unfinished(q)))
  {
    AllFieldsAppend(p, q);
    TakeAllAppend(EMPTY, AllFields(p), AllFields(q));
    TakeIsCombine(Unfinished(p), AllFields(q));
  }

  // --- directions ---

  datatype Direction = Sales | Purchase | Pending

  /**
   The `direction` of a record; None when its merged fields are something that has no keys. Values
   that are not strings spell no direction.
   */
  function DirectionOf(record: Json): Option<Direction>
    requires record.Object?
  {
    var merged := Lookup(record.fields, "merged_fields");
    if merged.Some? && Truthy(merged.value) && !merged.value.Object? then None else
    var direction := if merged.Some? && merged.value.Object? then Lookup(merged.value.fields, "direction") else None;
    var d := if direction.Some? && direction.value.String? then Lower(Strip(direction.value.s)) else "";
    Some(if d == "sales" || d == "income" then Sales
         else if d == "purchase" || d == "expense" then Purchase
         else Pending)
  }

  predicate Readable(record: Json) {
    record.Object? ==> DirectionOf(record).Some?
  }

  function Goes(direction: Direction): Json -> bool {
    (record: Json) => record.Object? && DirectionOf(record) == Some(direction)
  }

  /** The three lists; None when some record makes it crash. */
  method SplitByDirection(records: seq<Json>) returns (split: Option<(seq<Json>, seq<Json>, seq<Json>)>)
    ensures split.Some? <==> forall i :: 0 <= i < |records| ==> Readable(records[i])
    ensures split.Some? ==>
      split.value == (Filter(Goes(Sales), records), Filter(Goes(Purchase), records), Filter(Goes(Pending), records))
  {
    var sales, purchase, pending := [], [], [];
    for i := 0 to |records|
      invariant forall k :: 0 <= k < i ==> Readable(records[k])
      invariant sales == Filter(Goes(Sales), records[..i])
      invariant purchase == Filter(Goes(Purchase), records[..i])
      invariant pending == Filter(Goes(Pending), records[..i])
    {
      var record := records[i];
      FilterOneMore(Goes(Sales), records, i);
      FilterOneMore(Goes(Purchase), records, i);
      FilterOneMore(Goes(Pending), records, i);
      if record.Object? {
        var d := DirectionOf(record);
        if d.None? {
          return None;
        }
        match d.value {
          case Sales => sales := sales + [record];
          case Purchase => purchase := purchase + [record];
          case Pending => pending := pending + [record];
        }
      }
    }
    assert records[..|records|] == records;
    split := Some((sales, purchase, pending));
  }

  lemma FilterOneMore(keep: Json -> bool, xs: seq<Json>, i: nat)
    requires i < |xs|
    ensures Filter(keep, xs[..i + 1]) == Filter(keep, xs[..i]) + (if keep(xs[i]) then [xs[i]] else [])
  {
    assert xs[..i + 1] == xs[..i] + [xs[i]];
    FilterAppend(keep, xs[..i], [xs[i]]);
  }

  function IsObject(): Json -> bool {
    (record: Json) => record.Object?
  }

  lemma OneDirection(r: Json)
    requires Readable(r)
    ensures OneOf(Goes(Sales), Goes(Purchase), Goes(Pending), IsObject(), r)
  {
  }

  /**
   No record is lost, doubled or put in two lists: each object record stands in the three lists
   together as often as it was given.
   */
  lemma SplitIsPartition(records: seq<Json>)
    requires forall i :: 0 <= i < |records| ==> Readable(records[i])
    ensures multiset(Filter(Goes(Sales), records) + Filter(Goes(Purchase), records) + Filter(Goes(Pending), records))
      == multiset(Filter(IsObject(), records))
  {
    forall r | r in records ensures OneOf(Goes(Sales), Goes(Purchase), Goes(Pending), IsObject(), r) {
      OneDirection(r);
    }
    FilterPartition(Goes(Sales), Goes(Purchase), Goes(Pending), IsObject(), records);
  }

  // --- what is read from a record and a page ---

  /** The last pair with this key is the one that counts. */
  ghost predicate Holds(fields: seq<(string, Json)>, key: string, v: Json) {
    exists i :: LastAt(fields, key, i) && fields[i].1 == v
  }

  predicate LastAt(fields: seq<(string, Json)>, key: string, i: int) {
    0 <= i < |fields| && fields[i].0 == key && forall j :: i < j < |fields| ==> fields[j].0 != key
  }

  lemma {:induction false} LookupFinds(fields: seq<(string, Json)>, key: string)
    ensures match Lookup(fields, key)
      case Some(v) => exists i :: LastAt(fields, key, i) && fields[i].1 == v
      case None => forall i :: 0 <= i < |fields| ==> fields[i].0 != key
  {
    if fields != [] {
      var rest := fields[..|fields| - 1];
      if fields[|fields| - 1].0 == key {
        assert LastAt(fields, key, |fields| - 1);
      } else {
        LookupFinds(rest, key);
        if Lookup(rest, key).Some? {
          var i :| LastAt(rest, key, i) && rest[i].1 == Lookup(rest, key).value;
          assert LastAt(fields, key, i);
        }
      }
    }
  }

  lemma LookupExactly(fields: seq<(string, Json)>, key: string, v: Json)
    ensures Lookup(fields, key) == Some(v) <==> Holds(fields, key, v)
  {
    LookupFinds(fields, key);
    if Lookup(fields, key).Some? && Holds(fields, key, v) {
      var i :| LastAt(fields, key, i) && fields[i].1 == Lookup(fields, key).value;
      var j :| LastAt(fields, key, j) && fields[j].1 == v;
      assert i == j;
    }
  }

  /** Python's falsy values. */
  lemma FalsyExactly(v: Json)
    ensures !Truthy(v) <==>
      v in {Null, Bool(false), String(""), List([]), Object([])} || (v.Number? && v.zero)
    ensures Blank(v) <==> !Truthy(v) && !v.Bool? && !v.Number?
  {
  }

  /** A page gives the fields of its last "fields" object, and none when that is not an object. */
  lemma FieldsExactly(page: Json)
    ensures forall fields :: page.Object? && Holds(page.fields, "fields", Object(fields)) ==> FieldsOf(page) == fields
    ensures FieldsOf(page) != [] ==> page.Object? && Holds(page.fields, "fields", Object(FieldsOf(page)))
    ensures AllFields([page]) == FieldsOf(page)
  {
    if page.Object? {
      forall fields ensures Holds(page.fields, "fields", Object(fields)) ==> FieldsOf(page) == fields {
        LookupExactly(page.fields, "fields", Object(fields));
      }
      LookupExactly(page.fields, "fields", Object(FieldsOf(page)));
    }
    assert [page][..0] == [];
  }

  /** The record's merged fields have this text for their direction. */
  ghost predicate SaysDirection(record: Json, text: string)
    requires record.Object?
  {
    exists merged :: Holds(record.fields, "merged_fields", Object(merged)) && Holds(merged, "direction", String(text))
  }

  /** Records that say sales or income are sales, those that say purchase or expense purchases, in any case. */
  lemma DirectionByText(record: Json, text: string)
    requires record.Object? && SaysDirection(record, text)
    ensures DirectionOf(record) == Some(Sales) <==> Spells(text, "sales") || Spells(text, "income")
    ensures DirectionOf(record) == Some(Purchase) <==> Spells(text, "purchase") || Spells(text, "expense")
    ensures DirectionOf(record).Some?
  {
    var merged :| Holds(record.fields, "merged_fields", Object(merged)) && Holds(merged, "direction", String(text));
    LookupExactly(record.fields, "merged_fields", Object(merged));
    LookupExactly(merged, "direction", String(text));
    SpellsDirection(text);
  }

  lemma SpellsDirection(text: string)
    ensures forall word :: word in {"sales", "income", "purchase", "expense"} ==>
      (Lower(Strip(text)) == word <==> Spells(text, word))
  {
    forall word | word in {"sales", "income", "purchase", "expense"}
      ensures Lower(Strip(text)) == word <==> Spells(text, word)
    {
      DirectionWordIsPlain(word);
      SpellsExactly(text, word);
    }
  }

  lemma DirectionWordIsPlain(word: string)
    requires word in {"sales", "income", "purchase", "expense"}
    ensures IsPlain(word)
  {
  }

  /** A record that says none is pending, unless its merged fields are truthy and have no keys: then it crashes. */
  lemma NoDirectionIsPending(record: Json)
    requires record.Object? && forall text :: !SaysDirection(record, text)
    ensures DirectionOf(record) == None <==>
      exists v :: Holds(record.fields, "merged_fields", v) && Truthy(v) && !v.Object?
    ensures DirectionOf(record).Some? ==> DirectionOf(record) == Some(Pending)
  {
    var merged := Lookup(record.fields, "merged_fields");
    forall v ensures merged == Some(v) <==> Holds(record.fields, "merged_fields", v) {
      LookupExactly(record.fields, "merged_fields", v);
    }
    if merged.Some? && merged.value.Object? {
      var direction := Lookup(merged.value.fields, "direction");
      if direction.Some? && direction.value.String? {
        LookupExactly(merged.value.fields, "direction", direction.value);
        assert SaysDirection(record, direction.value.s);
      }
    }
    SpellNothing();
  }

  lemma SpellNothing()
    ensures Lower(Strip("")) == ""
  {
  }
}
