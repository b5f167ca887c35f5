/**
 * Per-product ad metrics: counters keyed by product image path, updated in
 * place on each impression, scored under three objectives, and saved to and
 * loaded from a JSON object keyed by product path.
 */
module AdPerformance {
  import opened Wrappers
  import opened Text
  import opened PyDict
  import opened Json

  /** The counters of one product. Counters read from a file may be any integer. */
  datatype AdPerformance = AdPerformance(
    productPath: string,
    impressions: int,
    totalWatchSeconds: real,
    likes: int,
    shares: int)

  /** The record `_get_or_create` starts a product with. */
  function Fresh(productPath: string): AdPerformance {
    AdPerformance(productPath, 0, 0.0, 0, 0)
  }

  /** Counters as `record_impression` keeps them: likes and shares never exceed impressions. */
  predicate Consistent(m: AdPerformance) {
    && 0 <= m.likes <= m.impressions
    && 0 <= m.shares <= m.impressions
    && m.totalWatchSeconds >= 0.0
  }

  function AvgWatchSeconds(m: AdPerformance): (r: real)
    ensures m.impressions == 0 ==> r == 0.0
    ensures Consistent(m) ==> r >= 0.0
  {
    if m.impressions != 0 then m.totalWatchSeconds / m.impressions as real else 0.0
  }

  function LikeRate(m: AdPerformance): (r: real)
    ensures m.impressions == 0 ==> r == 0.0
    ensures Consistent(m) ==> 0.0 <= r <= 1.0
  {
    if m.impressions != 0 then m.likes as real / m.impressions as real else 0.0
  }

  function ShareRate(m: AdPerformance): (r: real)
    ensures m.impressions == 0 ==> r == 0.0
    ensures Consistent(m) ==> 0.0 <= r <= 1.0
  {
    if m.impressions != 0 then m.shares as real / m.impressions as real else 0.0
  }

  /** One impression added to a product's counters. */
  function Bump(m: AdPerformance, secondsWatched: real, liked: bool, shared: bool): AdPerformance {
    m.(impressions := m.impressions + 1,
       totalWatchSeconds := m.totalWatchSeconds + secondsWatched,
       likes := if liked then m.likes + 1 else m.likes,
       shares := if shared then m.shares + 1 else m.shares)
  }

  /** The table after `record_impression` with a positive watch time. */
  function Record(metrics: Dict<AdPerformance>, productPath: string, secondsWatched: real, liked: bool, shared: bool)
    : Dict<AdPerformance>
  {
    Put(metrics, productPath, Bump(Get(metrics, productPath).GetOr(Fresh(productPath)), secondsWatched, liked, shared))
  }

  /**
   * An impression touches only the named product: its impressions grow by one,
   * its watch time by the seconds watched, its likes and shares by one exactly
   * when liked or shared; an unknown product starts from zero. Every other
   * product reads as before.
   */
  lemma RecordOnlyTouchesProduct(
    metrics: Dict<AdPerformance>, productPath: string, secondsWatched: real, liked: bool, shared: bool, other: string)
    ensures var before := Get(metrics, productPath).GetOr(Fresh(productPath));
      var after := Get(Record(metrics, productPath, secondsWatched, liked, shared), productPath);
      && after.Some?
      && after.value.productPath == before.productPath
      && after.value.impressions == before.impressions + 1
      && after.value.totalWatchSeconds == before.totalWatchSeconds + secondsWatched
      && after.value.likes == before.likes + (if liked then 1 else 0)
      && after.value.shares == before.shares + (if shared then 1 else 0)
    ensures other != productPath ==>
      Get(Record(metrics, productPath, secondsWatched, liked, shared), other) == Get(metrics, other)
  {
    var v := Bump(Get(metrics, productPath).GetOr(Fresh(productPath)), secondsWatched, liked, shared);
    GetPut(metrics, productPath, v, productPath);
    GetPut(metrics, productPath, v, other);
  }

  /**
   * The shape of a table the store builds: distinct keys, each entry filed
   * under its own product path, every entry's counters consistent.
   */
  predicate WellFormed(metrics: Dict<AdPerformance>) {
    && DistinctKeys(metrics)
    && forall e :: e in metrics ==> e.1.productPath == e.0 && Consistent(e.1)
  }

  /** A positive impression keeps a table well formed. */
  lemma RecordKeepsWellFormed(
    metrics: Dict<AdPerformance>, productPath: string, secondsWatched: real, liked: bool, shared: bool)
    requires WellFormed(metrics) && secondsWatched > 0.0
    ensures WellFormed(Record(metrics, productPath, secondsWatched, liked, shared))
  {
    var base := Get(metrics, productPath).GetOr(Fresh(productPath));
    if Get(metrics, productPath).Some? {
      GetFindsEntry(metrics, productPath);
    }
    assert base.productPath == productPath && Consistent(base);
    var v := Bump(base, secondsWatched, liked, shared);
    PutDistinct(metrics, productPath, v);
    PutMembers(metrics, productPath, v);
  }

  /** The engagement blend: 0.4 like rate, 0.4 share rate, 0.2 watch time capped at 10 s. */
  function Engagement(m: AdPerformance): real {
    var capped := if AvgWatchSeconds(m) <= 10.0 then AvgWatchSeconds(m) else 10.0;
    0.4 * LikeRate(m) + 0.4 * ShareRate(m) + 0.2 * (capped / 10.0)
  }

  /** `score`: 0 for an unknown or never shown product, otherwise by objective. */
  function Score(metrics: Dict<AdPerformance>, productPath: string, objective: string): (s: real)
    ensures Get(metrics, productPath).None? ==> s == 0.0
    ensures Get(metrics, productPath).Some? && Get(metrics, productPath).value.impressions == 0 ==> s == 0.0
  {
    match Get(metrics, productPath)
    case None => 0.0
    case Some(m) =>
      if m.impressions == 0 then 0.0
      else if objective == "watch_time" then AvgWatchSeconds(m)
      else if objective == "shares" then ShareRate(m)
      else Engagement(m)
  }

  /**
   * On a well-formed table every score is non-negative, and every objective
   * other than "watch_time" scores in [0, 1].
   */
  lemma ScoreBounds(metrics: Dict<AdPerformance>, productPath: string, objective: string)
    requires WellFormed(metrics)
    ensures Score(metrics, productPath, objective) >= 0.0
    ensures objective != "watch_time" ==> Score(metrics, productPath, objective) <= 1.0
  {
    if Get(metrics, productPath).Some? {
      GetFindsEntry(metrics, productPath);
      var m := Get(metrics, productPath).value;
      assert Consistent(m);
      var a := AvgWatchSeconds(m);
      var capped := if a <= 10.0 then a else 10.0;
      assert 0.0 <= capped / 10.0 <= 1.0;
    }
  }

  // ---- save and load ------------------------------------------------------

  /** `asdict` of a record: its five fields in declaration order. */
  function RecordJson(m: AdPerformance): Json {
    JObj([("product_path", JStr(m.productPath)),
          ("impressions", JInt(m.impressions)),
          ("total_watch_seconds", JNum(m.totalWatchSeconds)),
          ("likes", JInt(m.likes)),
          ("shares", JInt(m.shares))])
  }

  /** The document `save` writes: one record per product path, in table order. */
  function MetricsJson(metrics: Dict<AdPerformance>): (j: Json)
    ensures j.JObj? && |j.fields| == |metrics|
    ensures forall i :: 0 <= i < |metrics| ==> j.fields[i] == (metrics[i].0, RecordJson(metrics[i].1))
  {
    JObj(seq(|metrics|, i requires 0 <= i < |metrics| => (metrics[i].0, RecordJson(metrics[i].1))))
  }

  /** `int(x)`: bools count as 0/1, floats truncate toward zero, strings are parsed. */
  function ToInt(j: Json): Result<int, string> {
    match j
    case JInt(i) => Success(i)
    case JBool(b) => Success(if b then 1 else 0)
    case JNum(r) => Success(if r >= 0.0 then r.Floor else -((-r).Floor))
    case JStr(s) =>
      (match ParseInt(s) case Some(i) => Success(i) case None => Failure("ValueError"))
    case _ => Failure("TypeError")
  }

  /** `float(x)`. */
  function ToFloat(j: Json): Result<real, string> {
    match j
    case JInt(i) => Success(i as real)
    case JBool(b) => Success(if b then 1.0 else 0.0)
    case JNum(r) => Success(r)
    case JStr(s) =>
      (match ParseFloat(s) case Some(r) => Success(r) case None => Failure("ValueError"))
    case _ => Failure("TypeError")
  }

  /** `entry.get(key, default)` converted with `int(...)`. */
  function IntField(entry: Dict<Json>, key: string): Result<int, string> {
    match Get(entry, key) case None => Success(0) case Some(j) => ToInt(j)
  }

  function FloatField(entry: Dict<Json>, key: string): Result<real, string> {
    match Get(entry, key) case None => Success(0.0) case Some(j) => ToFloat(j)
  }

  /**
   * The product path of an entry: its truthy `product_path`, else the key.
   * A list or object there cannot be a dict key (TypeError). Python files any
   * other truthy non-string value under the value itself; the table here is
   * keyed by strings, so such a value is filed under its text, `str(value)`.
   */
  function EntryPath(key: string, entry: Dict<Json>, str: Json -> string): Result<string, string> {
    var p := OrElse(Get(entry, "product_path"), JStr(key));
    match p
    case JStr(s) => Success(s)
    case JList(_) => Failure("TypeError")
    case JObj(_) => Failure("TypeError")
    case _ => Success(str(p))
  }

  /** The record `load` builds from one entry, or the exception it raises. */
  function EntryMetric(key: string, entry: Dict<Json>, str: Json -> string): Result<AdPerformance, string> {
    var path := EntryPath(key, entry, str);
    var impressions := IntField(entry, "impressions");
    var total := FloatField(entry, "total_watch_seconds");
    var likes := IntField(entry, "likes");
    var shares := IntField(entry, "shares");
    if impressions.Failure? then Failure(impressions.error)
    else if total.Failure? then Failure(total.error)
    else if likes.Failure? then Failure(likes.error)
    else if shares.Failure? then Failure(shares.error)
    else if path.Failure? then Failure(path.error)
    else Success(AdPerformance(path.value, impressions.value, total.value, likes.value, shares.value))
  }

  /**
   * The table after loading `entries` on top of `acc`: non-object entries are
   * skipped, every other entry is filed under its product path, a later entry
   * replacing an earlier one, and the first exception stops the load.
   */
  function LoadEntries(acc: Dict<AdPerformance>, entries: Dict<Json>, str: Json -> string)
    : Result<Dict<AdPerformance>, string>
    decreases |entries|
  {
    if |entries| == 0 then Success(acc)
    else if !entries[0].1.JObj? then LoadEntries(acc, entries[1..], str)
    else
      match EntryMetric(entries[0].0, entries[0].1.fields, str)
      case Failure(e) => Failure(e)
      case Success(m) => LoadEntries(Put(acc, m.productPath, m), entries[1..], str)
  }

  /**
   * `AdPerformanceStore.load`: a missing or unreadable file and a document
   * that is not an object give an empty table.
   */
  function Loaded(file: JsonFile, str: Json -> string): Result<Dict<AdPerformance>, string> {
    if file.Parsed? && file.doc.JObj? then LoadEntries([], file.doc.fields, str) else Success([])
  }

  /** Whatever `load` returns has distinct keys, each entry filed under its own product path. */
  lemma {:induction false} LoadEntriesKeysMatch(acc: Dict<AdPerformance>, entries: Dict<Json>, str: Json -> string)
    requires DistinctKeys(acc) && forall e :: e in acc ==> e.1.productPath == e.0
    requires LoadEntries(acc, entries, str).Success?
    ensures var t := LoadEntries(acc, entries, str).value;
      DistinctKeys(t) && forall e :: e in t ==> e.1.productPath == e.0
    decreases |entries|
  {
    if |entries| > 0 {
      if entries[0].1.JObj? {
        var m := EntryMetric(entries[0].0, entries[0].1.fields, str).value;
        PutDistinct(acc, m.productPath, m);
        PutMembers(acc, m.productPath, m);
        LoadEntriesKeysMatch(Put(acc, m.productPath, m), entries[1..], str);
      } else {
        LoadEntriesKeysMatch(acc, entries[1..], str);
      }
    }
  }

  /** Entries of a table whose keys are their own product paths. */
  predicate KeysArePaths(metrics: Dict<AdPerformance>) {
    forall i :: 0 <= i < |metrics| ==> metrics[i].1.productPath == metrics[i].0
  }

  lemma EntryMetricOfRecord(m: AdPerformance, str: Json -> string)
    ensures EntryMetric(m.productPath, RecordJson(m).fields, str) == Success(m)
  {
    var f := RecordJson(m).fields;
    assert DistinctKeys(f);
    GetAt(f, 0);
    GetAt(f, 1);
    GetAt(f, 2);
    GetAt(f, 3);
    GetAt(f, 4);
  }

  lemma {:induction false} LoadSavedSuffix(metrics: Dict<AdPerformance>, i: nat, str: Json -> string)
    requires DistinctKeys(metrics) && KeysArePaths(metrics) && i <= |metrics|
    ensures LoadEntries(metrics[..i], MetricsJson(metrics).fields[i..], str) == Success(metrics)
    decreases |metrics| - i
  {
    var fields := MetricsJson(metrics).fields;
    if i == |metrics| {
      assert metrics[..i] == metrics;
    } else {
      var m := metrics[i].1;
      assert fields[i..][0] == (metrics[i].0, RecordJson(m));
      assert fields[i..][1..] == fields[i + 1..];
      EntryMetricOfRecord(m, str);
      assert m.productPath == metrics[i].0;
      forall j | 0 <= j < i ensures Keys(metrics[..i])[j] != m.productPath {
        assert metrics[j].0 != metrics[i].0;
      }
      GetSomeIffKey(metrics[..i], m.productPath);
      PutNew(metrics[..i], m.productPath, m);
      assert metrics[..i] + [(m.productPath, m)] == metrics[..i + 1];
      LoadSavedSuffix(metrics, i + 1, str);
    }
  }

  /**
   * Loading what `save` wrote gives back the same table, provided every
   * entry is filed under its own product path (as the store keeps it).
   */
  lemma LoadSaved(metrics: Dict<AdPerformance>, str: Json -> string)
    requires DistinctKeys(metrics) && KeysArePaths(metrics)
    ensures Loaded(Parsed(MetricsJson(metrics)), str) == Success(metrics)
  {
    LoadSavedSuffix(metrics, 0, str);
    assert MetricsJson(metrics).fields[0..] == MetricsJson(metrics).fields;
  }

  /** `load`, entry by entry. */
  method LoadMetrics(file: JsonFile, str: Json -> string) returns (r: Result<Dict<AdPerformance>, string>)
    ensures r == Loaded(file, str)
  {
    if !(file.Parsed? && file.doc.JObj?) {
      return Success([]);
    }
    var entries := file.doc.fields;
    var metrics: Dict<AdPerformance> := [];
    var i := 0;
    while i < |entries|
      invariant 0 <= i <= |entries|
      invariant LoadEntries(metrics, entries[i..], str) == LoadEntries([], entries, str)
    {
      assert entries[i..][1..] == entries[i + 1..];
      if entries[i].1.JObj? {
        var m := EntryMetric(entries[i].0, entries[i].1.fields, str);
        if m.Failure? {
          return Failure(m.error);
        }
        metrics := Put(metrics, m.value.productPath, m.value);
      }
      i := i + 1;
    }
    r := Success(metrics);
  }

  /**
   * The store: the metrics table, updated in place, and the last document
   * written to the metrics file (writes that fail are ignored).
   */
  class AdPerformanceStore {
    var metrics: Dict<AdPerformance>
    var saved: Option<Json>

    ghost predicate Valid()
      reads this
    {
      DistinctKeys(metrics)
    }

    constructor (metrics: Dict<AdPerformance>)
      requires DistinctKeys(metrics)
      ensures Valid()
      ensures this.metrics == metrics && saved == None
    {
      this.metrics := metrics;
      saved := None;
    }

    /** `save`: `writeOk` is false when the write raises an `OSError`, which is swallowed. */
    method Save(writeOk: bool)
      modifies this`saved
      ensures saved == if writeOk then Some(MetricsJson(metrics)) else old(saved)
    {
      if writeOk {
        saved := Some(MetricsJson(metrics));
      }
    }

    /** `_get_or_create`: the existing record, or a zeroed one filed under the key. */
    method GetOrCreate(productPath: string) returns (m: AdPerformance)
      requires Valid()
      modifies this`metrics
      ensures Valid()
      ensures old(Get(metrics, productPath)).Some? ==>
        m == old(Get(metrics, productPath)).value && metrics == old(metrics)
      ensures old(Get(metrics, productPath)).None? ==>
        m == Fresh(productPath) && metrics == old(metrics) + [(productPath, m)]
      ensures Get(metrics, productPath) == Some(m)
    {
      var found := Get(metrics, productPath);
      if found.Some? {
        return found.value;
      }
      m := Fresh(productPath);
      PutNew(metrics, productPath, m);
      PutDistinct(metrics, productPath, m);
      GetPut(metrics, productPath, m, productPath);
      metrics := Put(metrics, productPath, m);
    }

    /**
     * `record_impression`: nothing happens unless the watch time is positive;
     * otherwise the product's counters are bumped (see `Record`) and, with
     * `autosave`, the table is saved.
     */
    method RecordImpression(
      productPath: string, secondsWatched: real, liked: bool, shared: bool, autosave: bool, writeOk: bool)
      requires Valid()
      modifies this
      ensures Valid()
      ensures secondsWatched <= 0.0 ==> metrics == old(metrics) && saved == old(saved)
      ensures secondsWatched > 0.0 ==>
        && metrics == Record(old(metrics), productPath, secondsWatched, liked, shared)
        && saved == if autosave && writeOk then Some(MetricsJson(metrics)) else old(saved)
    {
      if secondsWatched <= 0.0 {
        return;
      }
      ghost var before := metrics;
      var m := GetOrCreate(productPath);
      if Get(before, productPath).None? {
        PutNew(before, productPath, m);
        PutPut(before, productPath, m, Bump(m, secondsWatched, liked, shared));
      }
      var seconds := if secondsWatched >= 0.0 then secondsWatched else 0.0;
      m := Bump(m, seconds, liked, shared);
      PutDistinct(metrics, productPath, m);
      metrics := Put(metrics, productPath, m);
      if autosave {
        Save(writeOk);
      }
    }

  }

  /**
   * The classmethod `load`: a store over the loaded table with nothing saved
   * yet, or the exception a malformed entry raises.
   */
  method LoadStore(file: JsonFile, str: Json -> string) returns (r: Result<AdPerformanceStore, string>)
    ensures r.Success? <==> Loaded(file, str).Success?
    ensures r.Failure? ==> r.error == Loaded(file, str).error
    ensures r.Success? ==>
      && fresh(r.value) && r.value.Valid()
      && r.value.metrics == Loaded(file, str).value && r.value.saved == None
  {
    var m := LoadMetrics(file, str);
    if m.Failure? {
      return Failure(m.error);
    }
    if file.Parsed? && file.doc.JObj? {
      LoadEntriesKeysMatch([], file.doc.fields, str);
    }
    var store := new AdPerformanceStore(m.value);
    return Success(store);
  }
}
