/**
 * IndexEnhancer: merges externally supplied metadata into entries.
 *
 * An active enhancer reads a JSON tree once. It walks the tree depth first:
 * into every object value, into every object item of an array, and for every
 * key named "sermons" it puts each record of that list that has a "pdf" key
 * into a map keyed by the record's distilled name. A name mapped twice is
 * fatal. `enhance` then replaces an entry's audio, pdf, date, title and
 * passage by those of the record mapped under the entry's pdf, and fails when
 * there is none. NO_OP returns every entry unchanged.
 *
 * The walk is specified twice: WalkObject follows the order of `recurse`, and
 * Records lists the "sermons" items of the tree in that order, so that the
 * walk is AddRecords over that list (WalkIsAddRecords).
 */
module Enhancers {
  import opened Lang
  import opened Strings
  import opened JsonTree
  import opened Entries
  import opened Sermons

  type SermonMap = map<string, SermonData>

  const SERMONS := "sermons"

  /** Every key is the distilled name of the record it maps to. */
  ghost predicate Distilled(m: SermonMap) {
    forall k :: k in m ==> m[k].PdfName() == Ok(k)
  }

  // ---------------------------------------------------------------------
  // One "sermons" item, and a list of them

  /**
   * What one item of a "sermons" list contributes: nothing when it has no
   * "pdf" key, its name and record otherwise. An item that is not an object,
   * a field that is not a string, a null pdf and an undistillable pdf fail.
   */
  function RecordEntry(item: Json): (r: Result<Option<(string, SermonData)>>)
    ensures item.JObject? && PDF !in ToMap(item.fields) ==> r == Ok(None)
    ensures !item.JObject? ==> r == Err(MalformedSermons)
    ensures r.Ok? && r.value.Some? ==> r.value.value.1.PdfName() == Ok(r.value.value.0)
  {
    match item
    case JObject(fields) =>
      var rec := ToMap(fields);
      if PDF !in rec then Ok(None)
      else
        var sd :- From(rec);
        var name :- sd.PdfName();
        Ok(Some((name, sd)))
    case _ => Err(MalformedSermons)
  }

  predicate HasName(item: Json) {
    RecordEntry(item).Ok? && RecordEntry(item).value.Some?
  }

  function NameOf(item: Json): string
    requires HasName(item)
  {
    RecordEntry(item).value.value.0
  }

  function DataOf(item: Json): SermonData
    requires HasName(item)
  {
    RecordEntry(item).value.value.1
  }

  /** One iteration of the "sermons" loop: skip, put, or fail. */
  function AddRecord(item: Json, m: SermonMap): Result<SermonMap>
  {
    var e :- RecordEntry(item);
    match e
    case None => Ok(m)
    case Some((name, sd)) =>
      if name in m then Err(AlreadyMapped(name)) else Ok(m[name := sd])
  }

  /** The whole "sermons" loop over `items`, starting from map `m`. */
  function AddRecords(items: seq<Json>, m: SermonMap): Result<SermonMap>
  {
    if items == [] then Ok(m)
    else
      var m1 :- AddRecord(items[0], m);
      AddRecords(items[1..], m1)
  }

  /** The value under a "sermons" key must be a list. */
  function AddSermons(value: Json, m: SermonMap): Result<SermonMap>
  {
    if value.JArray? then AddRecords(value.items, m) else Err(MalformedSermons)
  }

  // ---------------------------------------------------------------------
  // The walk, in the order of `recurse`

  function WalkObject(fields: seq<Field>, m: SermonMap): Result<SermonMap>
  {
    if fields == [] then Ok(m)
    else
      var m1 :- WalkEntry(fields[0], m);
      WalkObject(fields[1..], m1)
  }

  /** One entry: descend into an object value, then into the objects of a list value, then handle "sermons". */
  function WalkEntry(f: Field, m: SermonMap): Result<SermonMap>
  {
    var m1 :- if f.value.JObject? then WalkObject(f.value.fields, m) else Ok(m);
    var m2 :- if f.value.JArray? then WalkItems(f.value.items, m1) else Ok(m1);
    if f.key == SERMONS then AddSermons(f.value, m2) else Ok(m2)
  }

  /** The items of a list: objects are walked, anything else is ignored. */
  function WalkItems(items: seq<Json>, m: SermonMap): Result<SermonMap>
  {
    if items == [] then Ok(m)
    else
      var m1 :- if items[0].JObject? then WalkObject(items[0].fields, m) else Ok(m);
      WalkItems(items[1..], m1)
  }

  // ---------------------------------------------------------------------
  // The reference definition: every "sermons" item of the tree, in walk order

  function Records(fields: seq<Field>): Result<seq<Json>>
  {
    if fields == [] then Ok([])
    else
      var a :- EntryRecords(fields[0]);
      var b :- Records(fields[1..]);
      Ok(a + b)
  }

  function EntryRecords(f: Field): Result<seq<Json>>
  {
    var inner :- if f.value.JObject? then Records(f.value.fields) else Ok([]);
    var nested :- if f.value.JArray? then ItemRecords(f.value.items) else Ok([]);
    var own :- if f.key != SERMONS then Ok([])
               else if f.value.JArray? then Ok(f.value.items)
               else Err(MalformedSermons);
    Ok(inner + nested + own)
  }

  function ItemRecords(items: seq<Json>): Result<seq<Json>>
  {
    if items == [] then Ok([])
    else
      var a :- if items[0].JObject? then Records(items[0].fields) else Ok([]);
      var b :- ItemRecords(items[1..]);
      Ok(a + b)
  }

  // ---------------------------------------------------------------------
  // Lemmas: the walk is AddRecords over Records

  /** Continues a fold from the outcome of an earlier one. */
  function Then(r: Result<SermonMap>, items: seq<Json>): Result<SermonMap>
  {
    match r
    case Err(e) => Err(e)
    case Ok(m1) => AddRecords(items, m1)
  }

  lemma {:induction false} AddRecordsConcat(a: seq<Json>, b: seq<Json>, m: SermonMap)
    ensures AddRecords(a + b, m) == Then(AddRecords(a, m), b)
    decreases |a|
  {
    if a == [] {
      assert a + b == b;
    } else {
      assert (a + b)[0] == a[0];
      assert (a + b)[1..] == a[1..] + b;
      var r1 := AddRecord(a[0], m);
      if r1.Ok? {
        AddRecordsConcat(a[1..], b, r1.value);
      }
    }
  }

  lemma {:induction false} WalkObjectIsFold(fields: seq<Field>, m: SermonMap)
    ensures Records(fields).Ok? ==> WalkObject(fields, m) == AddRecords(Records(fields).value, m)
    ensures WalkObject(fields, m).Ok? ==> Records(fields).Ok?
    decreases fields
  {
    if fields != [] {
      var f, rest := fields[0], fields[1..];
      WalkEntryIsFold(f, m);
      var w := WalkEntry(f, m);
      if w.Ok? {
        WalkObjectIsFold(rest, w.value);
      }
      if Records(fields).Ok? {
        var a, b := EntryRecords(f).value, Records(rest).value;
        AddRecordsConcat(a, b, m);
      }
    }
  }

  lemma {:induction false} WalkEntryIsFold(f: Field, m: SermonMap)
    ensures EntryRecords(f).Ok? ==> WalkEntry(f, m) == AddRecords(EntryRecords(f).value, m)
    ensures WalkEntry(f, m).Ok? ==> EntryRecords(f).Ok?
    decreases f
  {
    var v := f.value;
    if v.JObject? {
      WalkObjectIsFold(v.fields, m);
    }
    var w1 := if v.JObject? then WalkObject(v.fields, m) else Ok(m);
    if w1.Ok? && v.JArray? {
      WalkItemsIsFold(v.items, w1.value);
    }
    if EntryRecords(f).Ok? {
      var inner := if v.JObject? then Records(v.fields).value else [];
      var nested := if v.JArray? then ItemRecords(v.items).value else [];
      var own := if f.key != SERMONS then [] else v.items;
      assert EntryRecords(f).value == inner + nested + own;
      assert w1 == AddRecords(inner, m);
      AddRecordsConcat(inner + nested, own, m);
      AddRecordsConcat(inner, nested, m);
      if w1.Ok? {
        var w2 := if v.JArray? then WalkItems(v.items, w1.value) else Ok(w1.value);
        assert w2 == AddRecords(nested, w1.value);
      }
    }
  }

  lemma {:induction false} WalkItemsIsFold(items: seq<Json>, m: SermonMap)
    ensures ItemRecords(items).Ok? ==> WalkItems(items, m) == AddRecords(ItemRecords(items).value, m)
    ensures WalkItems(items, m).Ok? ==> ItemRecords(items).Ok?
    decreases items
  {
    if items != [] {
      var x, rest := items[0], items[1..];
      if x.JObject? {
        WalkObjectIsFold(x.fields, m);
      }
      var w := if x.JObject? then WalkObject(x.fields, m) else Ok(m);
      if w.Ok? {
        WalkItemsIsFold(rest, w.value);
      }
      if ItemRecords(items).Ok? {
        var a := if x.JObject? then Records(x.fields).value else [];
        AddRecordsConcat(a, ItemRecords(rest).value, m);
      }
    }
  }

  /**
   * The walk succeeds exactly when the "sermons" values are lists and putting
   * their items in walk order succeeds, and it then yields that map.
   */
  lemma WalkIsAddRecords(fields: seq<Field>, m: SermonMap)
    ensures WalkObject(fields, m).Ok? <==>
      Records(fields).Ok? && AddRecords(Records(fields).value, m).Ok?
    ensures WalkObject(fields, m).Ok? ==>
      WalkObject(fields, m) == AddRecords(Records(fields).value, m)
  {
    WalkObjectIsFold(fields, m);
  }

  // ---------------------------------------------------------------------
  // Lemmas: what putting a list of records does

  /** An existing mapping is never overwritten. */
  lemma {:induction false} AddRecordsGrows(items: seq<Json>, m: SermonMap)
    requires AddRecords(items, m).Ok?
    ensures forall k :: k in m ==> k in AddRecords(items, m).value && AddRecords(items, m).value[k] == m[k]
    decreases |items|
  {
    if items != [] {
      AddRecordsGrows(items[1..], AddRecord(items[0], m).value);
    }
  }

  /** Every item is an object whose fields pass the casts and whose pdf, if any, distills. */
  predicate WellFormed(items: seq<Json>) {
    forall i :: 0 <= i < |items| ==> RecordEntry(items[i]).Ok?
  }

  /** No two named items share a name. */
  predicate NamesDistinct(items: seq<Json>) {
    forall i, j :: 0 <= i < j < |items| && HasName(items[i]) && HasName(items[j]) ==>
      NameOf(items[i]) != NameOf(items[j])
  }

  /** No named item has a name that `m` maps already. */
  predicate NamesFresh(items: seq<Json>, m: SermonMap) {
    forall i :: 0 <= i < |items| && HasName(items[i]) ==> NameOf(items[i]) !in m
  }

  /** Well-formedness, split into the first item and the rest. */
  lemma SplitWellFormed(items: seq<Json>)
    requires items != []
    ensures WellFormed(items) <==> RecordEntry(items[0]).Ok? && WellFormed(items[1..])
  {
    var rest := items[1..];
    if RecordEntry(items[0]).Ok? && WellFormed(rest) {
      forall i | 0 <= i < |items|
        ensures RecordEntry(items[i]).Ok?
      {
        if i > 0 {
          assert items[i] == rest[i - 1];
        }
      }
    }
    if WellFormed(items) {
      forall i | 0 <= i < |rest|
        ensures RecordEntry(rest[i]).Ok?
      {
        assert rest[i] == items[i + 1];
      }
    }
  }

  /** Freshness, split into the first item and the rest. */
  lemma SplitFresh(items: seq<Json>, m: SermonMap)
    requires items != []
    ensures NamesFresh(items, m) <==>
      (HasName(items[0]) ==> NameOf(items[0]) !in m) && NamesFresh(items[1..], m)
  {
    var rest := items[1..];
    if (HasName(items[0]) ==> NameOf(items[0]) !in m) && NamesFresh(rest, m) {
      forall i | 0 <= i < |items| && HasName(items[i])
        ensures NameOf(items[i]) !in m
      {
        if i > 0 {
          assert items[i] == rest[i - 1];
        }
      }
    }
    if NamesFresh(items, m) {
      forall i | 0 <= i < |rest| && HasName(rest[i])
        ensures NameOf(rest[i]) !in m
      {
        assert rest[i] == items[i + 1];
      }
    }
  }

  /** Names are distinct when they are among the rest and the first name is not among them. */
  lemma SplitDistinct(items: seq<Json>)
    requires items != []
    ensures NamesDistinct(items) <==>
      && NamesDistinct(items[1..])
      && (HasName(items[0]) ==> NamesFresh(items[1..], map[NameOf(items[0]) := DataOf(items[0])]))
  {
    var x, rest := items[0], items[1..];
    if NamesDistinct(items) {
      forall i, j | 0 <= i < j < |rest| && HasName(rest[i]) && HasName(rest[j])
        ensures NameOf(rest[i]) != NameOf(rest[j])
      {
        assert rest[i] == items[i + 1] && rest[j] == items[j + 1];
      }
      if HasName(x) {
        forall i | 0 <= i < |rest| && HasName(rest[i])
          ensures NameOf(rest[i]) !in map[NameOf(x) := DataOf(x)]
        {
          assert rest[i] == items[i + 1];
        }
      }
    }
    if NamesDistinct(rest) && (HasName(x) ==> NamesFresh(rest, map[NameOf(x) := DataOf(x)])) {
      forall i, j | 0 <= i < j < |items| && HasName(items[i]) && HasName(items[j])
        ensures NameOf(items[i]) != NameOf(items[j])
      {
        assert items[j] == rest[j - 1];
        if i > 0 {
          assert items[i] == rest[i - 1];
        }
      }
    }
  }

  /** Fresh for a map with one more key: fresh for the map, and a different name. */
  lemma FreshAfterPut(items: seq<Json>, m: SermonMap, name: string, sd: SermonData)
    ensures NamesFresh(items, m[name := sd]) <==>
      NamesFresh(items, m) && NamesFresh(items, map[name := sd])
  {
  }

  /**
   * Putting succeeds exactly when every item is well formed, no two named
   * items share a name, and no name is mapped already.
   */
  lemma {:induction false} AddRecordsOk(items: seq<Json>, m: SermonMap)
    ensures AddRecords(items, m).Ok? <==>
      WellFormed(items) && NamesDistinct(items) && NamesFresh(items, m)
    decreases |items|
  {
    if items != [] {
      var x, rest := items[0], items[1..];
      SplitWellFormed(items);
      SplitFresh(items, m);
      SplitDistinct(items);
      if RecordEntry(x).Ok? {
        if !HasName(x) {
          assert AddRecord(x, m) == Ok(m);
          AddRecordsOk(rest, m);
        } else if NameOf(x) !in m {
          var m1 := m[NameOf(x) := DataOf(x)];
          assert AddRecord(x, m) == Ok(m1);
          AddRecordsOk(rest, m1);
          FreshAfterPut(rest, m, NameOf(x), DataOf(x));
        }
      }
    }
  }

  /** After a successful put, every named item is mapped under its name. */
  lemma {:induction false} AddRecordsMaps(items: seq<Json>, m: SermonMap)
    requires AddRecords(items, m).Ok?
    ensures forall i :: 0 <= i < |items| && HasName(items[i]) ==>
      NameOf(items[i]) in AddRecords(items, m).value &&
      AddRecords(items, m).value[NameOf(items[i])] == DataOf(items[i])
    ensures forall k :: k in AddRecords(items, m).value ==>
      k in m || exists i :: 0 <= i < |items| && HasName(items[i]) && NameOf(items[i]) == k
    decreases |items|
  {
    if items != [] {
      var x, rest := items[0], items[1..];
      var m1 := AddRecord(x, m).value;
      AddRecordsMaps(rest, m1);
      AddRecordsGrows(rest, m1);
      assert forall i :: 0 < i < |items| ==> items[i] == rest[i - 1];
      var m2 := AddRecords(items, m).value;
      forall k | k in m2
        ensures k in m || exists i :: 0 <= i < |items| && HasName(items[i]) && NameOf(items[i]) == k
      {
        if k !in m1 {
          var i :| 0 <= i < |rest| && HasName(rest[i]) && NameOf(rest[i]) == k;
          assert items[i + 1] == rest[i];
        } else if k !in m {
          assert HasName(x) && NameOf(x) == k;
        }
      }
    }
  }

  /** Every mapped record is mapped under its own distilled name. */
  lemma {:induction false} AddRecordsDistilled(items: seq<Json>, m: SermonMap)
    requires Distilled(m) && AddRecords(items, m).Ok?
    ensures Distilled(AddRecords(items, m).value)
    decreases |items|
  {
    if items != [] {
      var m1 := AddRecord(items[0], m).value;
      assert Distilled(m1);
      AddRecordsDistilled(items[1..], m1);
    }
  }

  /**
   * After a successful walk from the empty map, the map holds exactly the
   * named "sermons" items of the tree, each under its own name.
   */
  lemma WalkMapsRecords(fields: seq<Field>)
    requires WalkObject(fields, map[]).Ok?
    ensures Records(fields).Ok?
    ensures Distilled(WalkObject(fields, map[]).value)
    ensures forall i :: 0 <= i < |Records(fields).value| && HasName(Records(fields).value[i]) ==>
      var x := Records(fields).value[i];
      NameOf(x) in WalkObject(fields, map[]).value && WalkObject(fields, map[]).value[NameOf(x)] == DataOf(x)
    ensures forall k :: k in WalkObject(fields, map[]).value ==>
      exists i :: 0 <= i < |Records(fields).value| && HasName(Records(fields).value[i]) &&
        NameOf(Records(fields).value[i]) == k
  {
    WalkIsAddRecords(fields, map[]);
    AddRecordsMaps(Records(fields).value, map[]);
    AddRecordsDistilled(Records(fields).value, map[]);
  }

  /** Two "sermons" items of the tree with the same name make the walk fail. */
  lemma WalkRejectsDuplicates(fields: seq<Field>, i: nat, j: nat)
    requires Records(fields).Ok?
    requires i < j < |Records(fields).value|
    requires HasName(Records(fields).value[i]) && HasName(Records(fields).value[j])
    requires NameOf(Records(fields).value[i]) == NameOf(Records(fields).value[j])
    ensures WalkObject(fields, map[]).Err?
  {
    WalkIsAddRecords(fields, map[]);
    AddRecordsOk(Records(fields).value, map[]);
    assert !NamesDistinct(Records(fields).value);
  }

  // ---------------------------------------------------------------------
  // The enhancer object

  class IndexEnhancer {
    /** Whether a metadata file was given (`enhanceFile != null`). */
    const active: bool
    var sermonDataMap: SermonMap

    ghost predicate Valid()
      reads this
    {
      Distilled(sermonDataMap) && (!active ==> sermonDataMap == map[])
    }

    /** NO_OP: no file, an empty map. */
    constructor NoOp()
      ensures Valid() && !active && sermonDataMap == map[]
    {
      active := false;
      sermonDataMap := map[];
    }

    /** The state of the file-based constructor before it parses. */
    constructor Unparsed()
      ensures Valid() && active && sermonDataMap == map[]
    {
      active := true;
      sermonDataMap := map[];
    }

    /**
     * IndexEnhancer(File): the file must not be null, the reader must yield an
     * object (`document` is None when it fails), and the walk must succeed.
     * A document that is JSON null reads as a null map, which the walk then
     * dereferences.
     */
    static method Parse(enhanceFile: Nullable<File>, document: Option<Json>) returns (r: Result<IndexEnhancer>)
      ensures enhanceFile.Null? ==> r == Err(NullMetadataFile)
      ensures enhanceFile.NonNull? && document == Some(JNull) ==> r == Err(NullDocument)
      ensures enhanceFile.NonNull? && (document.None? || !(document.value.JObject? || document.value.JNull?)) ==>
        r == Err(UnreadableMetadata)
      ensures enhanceFile.NonNull? && document.Some? && document.value.JObject? ==>
        r.Status() == WalkObject(document.value.fields, map[]).Status()
      ensures r.Ok? ==> fresh(r.value) && r.value.Valid() && r.value.active
      ensures r.Ok? ==> r.value.sermonDataMap == WalkObject(document.value.fields, map[]).value
    {
      if enhanceFile.Null? {
        return Err(NullMetadataFile);
      }
      if document == Some(JNull) {
        return Err(NullDocument);
      }
      if !(document.Some? && document.value.JObject?) {
        return Err(UnreadableMetadata);
      }
      var e := new IndexEnhancer.Unparsed();
      var o := e.Recurse(document.value.fields);
      if o.Fail? {
        return Err(o.error);
      }
      WalkMapsRecords(document.value.fields);
      return Ok(e);
    }

    /** `recurse`: the walk of one object, putting records into the map in place. */
    method Recurse(fields: seq<Field>) returns (o: Outcome)
      modifies this
      ensures o == WalkObject(fields, old(sermonDataMap)).Status()
      ensures o.Pass? ==> sermonDataMap == WalkObject(fields, old(sermonDataMap)).value
      decreases fields
    {
      var i := 0;
      while i < |fields|
        invariant 0 <= i <= |fields|
        invariant WalkObject(fields, old(sermonDataMap)) == WalkObject(fields[i..], sermonDataMap)
      {
        var f := fields[i];
        assert fields[i..][0] == f && fields[i..][1..] == fields[i + 1..];
        ghost var m0 := sermonDataMap;
        if f.value.JObject? {
          o := Recurse(f.value.fields);
          if o.Fail? {
            return;
          }
        }
        ghost var m1 := sermonDataMap;
        assert (if f.value.JObject? then WalkObject(f.value.fields, m0) else Ok(m0)) == Ok(m1);
        if f.value.JArray? {
          var items := f.value.items;
          var j := 0;
          while j < |items|
            invariant 0 <= j <= |items|
            invariant WalkItems(items, m1) == WalkItems(items[j..], sermonDataMap)
          {
            assert items[j..][0] == items[j] && items[j..][1..] == items[j + 1..];
            if items[j].JObject? {
              o := Recurse(items[j].fields);
              if o.Fail? {
                return;
              }
            }
            j := j + 1;
          }
        }
        if f.key == SERMONS {
          o := MapSermons(f.value);
          if o.Fail? {
            return;
          }
        }
        i := i + 1;
      }
      o := Pass;
    }

    /** The body of `recurse` for a "sermons" key: put each record that has a pdf. */
    method MapSermons(value: Json) returns (o: Outcome)
      modifies this
      ensures o == AddSermons(value, old(sermonDataMap)).Status()
      ensures o.Pass? ==> sermonDataMap == AddSermons(value, old(sermonDataMap)).value
    {
      if !value.JArray? {
        return Fail(MalformedSermons);
      }
      var items := value.items;
      var j := 0;
      while j < |items|
        invariant 0 <= j <= |items|
        invariant AddRecords(items, old(sermonDataMap)) == AddRecords(items[j..], sermonDataMap)
      {
        assert items[j..][0] == items[j] && items[j..][1..] == items[j + 1..];
        var e := RecordEntry(items[j]);
        if e.Err? {
          return Fail(e.error);
        }
        if e.value.Some? {
          var (name, sd) := e.value.value;
          if name in sermonDataMap {
            return Fail(AlreadyMapped(name));
          }
          sermonDataMap := sermonDataMap[name := sd];
        }
        j := j + 1;
      }
      o := Pass;
    }

    /**
     * `enhance`: the identity without a file; otherwise the entry with audio,
     * pdf, date, title and passage taken from the record mapped under the
     * entry's pdf, or a failure when there is none. The new pdf is the
     * record's full path, longer than the name it was found under.
     */
    method Enhance(entry: IndexEntry) returns (r: Result<IndexEntry>)
      requires Valid()
      ensures !active ==> r == Ok(entry)
      ensures active && entry.pdf !in sermonDataMap ==> r == Err(NoSermonData(entry.pdf))
      ensures active && entry.pdf in sermonDataMap ==> r.Ok?
      ensures active && entry.pdf in sermonDataMap ==>
        var sd := sermonDataMap[entry.pdf];
        && r.value.audio == sd.audio && r.value.pdf == sd.pdf && r.value.date == sd.date
        && r.value.title == sd.title && r.value.passage == sd.passage
        && r.value.keywords == entry.keywords && r.value.rawText == entry.rawText
      ensures active && entry.pdf in sermonDataMap ==> |r.value.pdf| > |entry.pdf|
    {
      if !active {
        return Ok(entry);
      }
      if entry.pdf !in sermonDataMap {
        return Err(NoSermonData(entry.pdf));
      }
      var sd := sermonDataMap[entry.pdf];
      assert sd.PdfName() == Ok(entry.pdf);
      var slash :| 0 <= slash < |sd.pdf| && sd.pdf[slash] == '/';
      SlashIsNotBlank(sd.pdf, slash);
      var b := new Builder();
      b := b.From(entry);
      b := b.Audio(sd.audio);
      b := b.Pdf(NonNull(sd.pdf));
      b := b.Date(sd.date);
      b := b.Title(sd.title);
      b := b.Passage(sd.passage);
      r := b.Build();
    }
  }
}
