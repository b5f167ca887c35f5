/**
 * The product catalogue: a decoded JSON document normalised into records keyed
 * by the basename of each product's image, and the trimmed product
 * description read from disk.
 */
module ProductMetadata {
  import opened Wrappers
  import opened Text
  import opened Paths
  import opened PyDict
  import opened Json

  datatype ProductMeta = ProductMeta(
    id: string,
    name: string,
    imagePath: string,
    descriptionPath: Option<string>,
    url: string,
    ctaText: string)

  const DEFAULT_CTA_TEXT := "View product"

  /** `str(x)`: a string is itself; the text of any other value is the parameter `str`. */
  function PyStr(j: Json, str: Json -> string): string {
    if j.JStr? then j.s else str(j)
  }

  /** A field that is present and truthy (`entry.get(key)` taken by `or`). */
  predicate Given(fields: Dict<Json>, key: string) {
    Get(fields, key).Some? && Truthy(Get(fields, key).value)
  }

  /** A field that is present and a string. */
  predicate IsStringField(fields: Dict<Json>, key: string) {
    Get(fields, key).Some? && Get(fields, key).value.JStr?
  }

  /**
   * The record one catalogue entry yields, or None when the entry is skipped:
   * it is not an object, or its `image_path` or `url` is not a string.
   */
  function EntryMeta(entry: Json, str: Json -> string): (r: Option<ProductMeta>)
    ensures r.Some? <==>
      entry.JObj? && IsStringField(entry.fields, "image_path") && IsStringField(entry.fields, "url")
    ensures r.Some? ==>
      var f := entry.fields;
      && r.value.imagePath == Get(f, "image_path").value.s
      && r.value.url == Get(f, "url").value.s
      && (!Given(f, "id") ==> r.value.id == Stem(r.value.imagePath))
      && (Given(f, "id") && Get(f, "id").value.JStr? ==> r.value.id == Get(f, "id").value.s)
      && (!Given(f, "name") ==> r.value.name == r.value.id)
      && (Given(f, "name") && Get(f, "name").value.JStr? ==> r.value.name == Get(f, "name").value.s)
      && (!Given(f, "cta_text") ==> r.value.ctaText == DEFAULT_CTA_TEXT)
      && (Given(f, "cta_text") && Get(f, "cta_text").value.JStr? ==> r.value.ctaText == Get(f, "cta_text").value.s)
      && (r.value.descriptionPath.Some? <==> IsStringField(f, "description_path"))
      && (r.value.descriptionPath.Some? ==> r.value.descriptionPath.value == Get(f, "description_path").value.s)
  {
    if !entry.JObj? then None
    else
      var f := entry.fields;
      var image := Get(f, "image_path");
      var url := Get(f, "url");
      if !(image.Some? && image.value.JStr? && url.Some? && url.value.JStr?) then None
      else
        var id := PyStr(OrElse(Get(f, "id"), JStr(Stem(image.value.s))), str);
        var name := PyStr(OrElse(Get(f, "name"), JStr(id)), str);
        var cta := PyStr(OrElse(Get(f, "cta_text"), JStr(DEFAULT_CTA_TEXT)), str);
        var desc := Get(f, "description_path");
        var descPath := if desc.Some? && desc.value.JStr? then Some(desc.value.s) else None;
        Some(ProductMeta(id, name, image.value.s, descPath, url.value.s, cta))
  }

  /** The table after adding `entries`, in order, to `acc`; a later entry replaces an earlier one. */
  function AddEntries(acc: Dict<ProductMeta>, entries: seq<Json>, str: Json -> string): Dict<ProductMeta>
    decreases |entries|
  {
    if |entries| == 0 then acc
    else
      match EntryMeta(entries[0], str)
      case None => AddEntries(acc, entries[1..], str)
      case Some(m) => AddEntries(Put(acc, Basename(m.imagePath), m), entries[1..], str)
  }

  /**
   * The entry list of a catalogue: a bare list, or the `products` value of an
   * object (an empty list when absent). None when it is not a list, and for a
   * missing or undecodable file.
   */
  function CatalogueEntries(file: JsonFile): (r: Option<seq<Json>>)
    ensures !file.Parsed? ==> r == None
    ensures file.Parsed? && file.doc.JList? ==> r == Some(file.doc.items)
    ensures file.Parsed? && !file.doc.JList? && !file.doc.JObj? ==> r == None
    ensures file.Parsed? && file.doc.JObj? && Get(file.doc.fields, "products").None? ==> r == Some([])
    ensures file.Parsed? && file.doc.JObj? && Get(file.doc.fields, "products").Some? ==>
      r == (if Get(file.doc.fields, "products").value.JList?
            then Some(Get(file.doc.fields, "products").value.items) else None)
  {
    if !file.Parsed? then None
    else
      var data := if file.doc.JObj? then Get(file.doc.fields, "products").GetOr(JList([])) else file.doc;
      if data.JList? then Some(data.items) else None
  }

  /** `load_product_metadata`, as a value. */
  function ProductTable(file: JsonFile, str: Json -> string): Dict<ProductMeta> {
    match CatalogueEntries(file)
    case None => []
    case Some(entries) => AddEntries([], entries, str)
  }

  /** `load_product_metadata`: the catalogue read entry by entry into a table. */
  method LoadProductMetadata(file: JsonFile, str: Json -> string) returns (table: Dict<ProductMeta>)
    ensures table == ProductTable(file, str)
  {
    var data := CatalogueEntries(file);
    if data.None? {
      return [];
    }
    var entries := data.value;
    table := [];
    var i := 0;
    while i < |entries|
      invariant 0 <= i <= |entries|
      invariant AddEntries(table, entries[i..], str) == AddEntries([], entries, str)
    {
      assert entries[i..][1..] == entries[i + 1..];
      var meta := EntryMeta(entries[i], str);
      if meta.Some? {
        table := Put(table, Basename(meta.value.imagePath), meta.value);
      }
      i := i + 1;
    }
    assert entries[i..] == [];
  }

  /** The last accepted entry whose image has basename `key`: an independent account of "later wins". */
  function LastFor(entries: seq<Json>, key: string, str: Json -> string): Option<ProductMeta>
    decreases |entries|
  {
    if |entries| == 0 then None
    else
      var m := EntryMeta(entries[|entries| - 1], str);
      if m.Some? && Basename(m.value.imagePath) == key then m
      else LastFor(entries[..|entries| - 1], key, str)
  }

  /**
   * Looking up a basename in the table finds the last accepted entry with
   * that image basename, or whatever the table started with when there is none.
   */
  lemma {:induction false} AddEntriesLaterWins(acc: Dict<ProductMeta>, entries: seq<Json>, key: string, str: Json -> string)
    ensures Get(AddEntries(acc, entries, str), key)
         == if LastFor(entries, key, str).Some? then LastFor(entries, key, str) else Get(acc, key)
    decreases |entries|
  {
    if |entries| > 0 {
      var m := EntryMeta(entries[0], str);
      var acc' := if m.Some? then Put(acc, Basename(m.value.imagePath), m.value) else acc;
      assert AddEntries(acc, entries, str) == AddEntries(acc', entries[1..], str);
      AddEntriesLaterWins(acc', entries[1..], key, str);
      if m.Some? {
        GetPut(acc, Basename(m.value.imagePath), m.value, key);
      }
      LastForCons(entries, key, str);
    }
  }

  /** `LastFor` on a list is `LastFor` on its tail, else the head when it matches. */
  lemma {:induction false} LastForCons(entries: seq<Json>, key: string, str: Json -> string)
    requires |entries| > 0
    ensures LastFor(entries, key, str) ==
      if LastFor(entries[1..], key, str).Some? then LastFor(entries[1..], key, str)
      else
        var m := EntryMeta(entries[0], str);
        if m.Some? && Basename(m.value.imagePath) == key then m else None
    decreases |entries|
  {
    if |entries| > 1 {
      var init := entries[..|entries| - 1];
      LastForCons(init, key, str);
      assert init[1..] == entries[1..][..|entries[1..]| - 1];
      assert init[0] == entries[0];
    }
  }

  /** The table lookup of a basename is the last entry with that basename in the catalogue. */
  lemma LaterEntryWins(file: JsonFile, key: string, str: Json -> string)
    requires CatalogueEntries(file).Some?
    ensures Get(ProductTable(file, str), key) == LastFor(CatalogueEntries(file).value, key, str)
  {
    AddEntriesLaterWins([], CatalogueEntries(file).value, key, str);
  }

  /** Every record sits under the basename of its image, once. */
  predicate KeyedByBasename(table: Dict<ProductMeta>) {
    && DistinctKeys(table)
    && forall e :: e in table ==> e.0 == Basename(e.1.imagePath)
  }

  lemma {:induction false} AddEntriesKeyed(acc: Dict<ProductMeta>, entries: seq<Json>, str: Json -> string)
    requires KeyedByBasename(acc)
    ensures KeyedByBasename(AddEntries(acc, entries, str))
    decreases |entries|
  {
    if |entries| > 0 {
      var m := EntryMeta(entries[0], str);
      if m.Some? {
        PutDistinct(acc, Basename(m.value.imagePath), m.value);
        PutMembers(acc, Basename(m.value.imagePath), m.value);
        AddEntriesKeyed(Put(acc, Basename(m.value.imagePath), m.value), entries[1..], str);
      } else {
        AddEntriesKeyed(acc, entries[1..], str);
      }
    }
  }

  /** The loaded table has one record per key, each filed under its image's basename. */
  lemma ProductTableKeyed(file: JsonFile, str: Json -> string)
    ensures KeyedByBasename(ProductTable(file, str))
  {
    if CatalogueEntries(file).Some? {
      AddEntriesKeyed([], CatalogueEntries(file).value, str);
    }
  }

  /** `get_product_metadata_for_basename` on the table loaded at start-up. */
  function ProductMetadataForBasename(table: Dict<ProductMeta>, basename: string): (r: Option<ProductMeta>)
    ensures r.Some? <==> basename in Keys(table)
    ensures r.Some? ==> (basename, r.value) in table
  {
    GetSomeIffKey(table, basename);
    if Get(table, basename).Some? then GetFindsEntry(table, basename); Get(table, basename)
    else None
  }

  /**
   * `load_product_description`: "" without a description path or when the
   * file is absent or unreadable (`files` holds the readable files), and
   * otherwise the text with blanks stripped from both ends.
   */
  function ProductDescription(meta: ProductMeta, files: map<string, string>): (r: string)
    ensures meta.descriptionPath.None? || meta.descriptionPath.value !in files ==> r == ""
    ensures meta.descriptionPath.Some? && meta.descriptionPath.value in files ==>
      StrippedFrom(files[meta.descriptionPath.value], r)
  {
    if meta.descriptionPath.None? || meta.descriptionPath.value !in files then ""
    else
      var text := files[meta.descriptionPath.value];
      StripSpec(text);
      Strip(text)
  }
}
