/** The Elasticsearch side of the shop: the fixed "products" index schema, the
    bulk body built from catalog rows, and the three start-up/maintenance
    routines that create, recreate and fill the index.  The cluster is an
    abstract store mapping index names to a schema and the documents by id;
    whether each remote call succeeds is an input of the model. */
module SearchIndex {
  import opened Wrappers

  const ProductsIndex := "products"

  /** `parseFloat(raw)`, kept as an uninterpreted term over the column text. */
  datatype FloatOf = ParseFloat(raw: string)

  /** A row of `SELECT * FROM products`; `price` is the DECIMAL column as text. */
  datatype ProductRow = ProductRow(
    prodid: int, proname: string, description: string,
    price: string, catid: int, dateinserted: string)

  /** The stored document of a product. */
  datatype Doc = Doc(proname: string, description: string, price: FloatOf, catid: int)

  /** One line of a bulk request: an `index` action or the document after it. */
  datatype BulkItem = IndexAction(index: string, id: int) | Source(doc: Doc)

  datatype BulkRequest = BulkRequest(refresh: bool, body: seq<BulkItem>)

  datatype FieldType = Text(analyzer: string) | FloatField | IntegerField | DateField

  datatype Mapping = Mapping(field: string, fieldType: FieldType)

  datatype SynonymFilter = SynonymFilter(name: string, kind: string, synonyms: seq<string>)

  datatype Analyzer = Analyzer(name: string, tokenizer: string, filters: seq<string>)

  /** The `settings.analysis` and `mappings` of an index. */
  datatype Schema = Schema(filter: SynonymFilter, analyzer: Analyzer, mappings: seq<Mapping>)

  /** An index: the schema it was created with (`None` when Elasticsearch
      created it implicitly for a bulk write, with dynamic mappings) and its
      documents by `_id`. */
  datatype Index = Index(schema: Option<Schema>, docs: map<int, Doc>)

  const SynonymGroups: seq<string> := [
    "mobile, mobiles, phone, phones, smartphone, smartphones",
    "tv, television",
    "laptop, notebook",
    "earphones, earbuds, headphones, headset",
    "fridge, refrigerator",
    "ac, air conditioner",
    "book, books",
    "kitchen, cookware, utensils"
  ]

  /** The schema written out in the start-up routine of the server. */
  const ServerSchema: Schema := Schema(
    SynonymFilter("synonym_filter", "synonym", SynonymGroups),
    Analyzer("custom_analyzer", "standard", ["lowercase", "synonym_filter", "porter_stem"]),
    [ Mapping("proname", Text("custom_analyzer")),
      Mapping("description", Text("custom_analyzer")),
      Mapping("price", FloatField),
      Mapping("catid", IntegerField),
      Mapping("dateinserted", DateField) ])

  /** The schema written out, a second time, in the index re-creation script. */
  const ScriptSchema: Schema := Schema(
    SynonymFilter("synonym_filter", "synonym", [
      "mobile, mobiles, phone, phones, smartphone, smartphones",
      "tv, television",
      "laptop, notebook",
      "earphones, earbuds, headphones, headset",
      "fridge, refrigerator",
      "ac, air conditioner",
      "book, books",
      "kitchen, cookware, utensils"
    ]),
    Analyzer("custom_analyzer", "standard", ["lowercase", "synonym_filter", "porter_stem"]),
    [ Mapping("proname", Text("custom_analyzer")),
      Mapping("description", Text("custom_analyzer")),
      Mapping("price", FloatField),
      Mapping("catid", IntegerField),
      Mapping("dateinserted", DateField) ])

  /** Position of `x` in `s`, or |s| when absent. */
  function IndexOf(s: seq<string>, x: string): (k: nat)
    ensures k <= |s| && (k < |s| ==> s[k] == x) && forall j :: 0 <= j < k ==> s[j] != x
  {
    if s == [] then 0 else if s[0] == x then 0 else 1 + IndexOf(s[1..], x)
  }

  function TypeOf(mappings: seq<Mapping>, field: string): Option<FieldType> {
    if mappings == [] then None
    else if mappings[0].field == field then Some(mappings[0].fieldType)
    else TypeOf(mappings[1..], field)
  }

  /** The analyzer chain lower-cases, then expands synonyms, then stems, and
      every full-text field is analysed by the declared custom analyzer. */
  predicate ChainInOrder(s: Schema) {
    var f := s.analyzer.filters;
    IndexOf(f, "lowercase") < IndexOf(f, s.filter.name) < IndexOf(f, "porter_stem") < |f|
  }

  predicate SearchFieldsAnalyzed(s: Schema) {
    TypeOf(s.mappings, "proname") == Some(Text(s.analyzer.name))
    && TypeOf(s.mappings, "description") == Some(Text(s.analyzer.name))
  }

  /** Both literal schemas are the same value, with the filter chain in the
      order lowercase, synonyms, stemming, the eight synonym groups, and the
      field types the search compiler relies on. */
  lemma SchemasAgree()
    ensures ScriptSchema == ServerSchema
    ensures ChainInOrder(ServerSchema) && SearchFieldsAnalyzed(ServerSchema)
    ensures |ServerSchema.filter.synonyms| == 8 && ServerSchema.analyzer.tokenizer == "standard"
    ensures TypeOf(ServerSchema.mappings, "price") == Some(FloatField)
    ensures TypeOf(ServerSchema.mappings, "catid") == Some(IntegerField)
    ensures TypeOf(ServerSchema.mappings, "dateinserted") == Some(DateField)
  {
  }

  /** The document built for one row: `dateinserted` and `prodid` are not copied. */
  function DocOf(p: ProductRow): (d: Doc)
    ensures d.proname == p.proname && d.description == p.description
    ensures d.price == ParseFloat(p.price) && d.catid == p.catid
  {
    Doc(p.proname, p.description, ParseFloat(p.price), p.catid)
  }

  /** The bulk body for a list of rows, as a value. */
  function BulkBody(products: seq<ProductRow>): seq<BulkItem> {
    if products == [] then []
    else [IndexAction(ProductsIndex, products[0].prodid), Source(DocOf(products[0]))] + BulkBody(products[1..])
  }

  /** The body interleaves one action and one document per row, in row order. */
  lemma {:induction false} BulkBodyShape(products: seq<ProductRow>)
    ensures |BulkBody(products)| == 2 * |products|
    ensures forall i :: 0 <= i < |products| ==>
      BulkBody(products)[2 * i] == IndexAction(ProductsIndex, products[i].prodid)
      && BulkBody(products)[2 * i + 1] == Source(DocOf(products[i]))
  {
    if products != [] {
      BulkBodyShape(products[1..]);
      forall i | 1 <= i < |products|
        ensures BulkBody(products)[2 * i] == IndexAction(ProductsIndex, products[i].prodid)
        ensures BulkBody(products)[2 * i + 1] == Source(DocOf(products[i]))
      {
        assert products[1..][i - 1] == products[i];
      }
    }
  }

  /** The `forEach`/`push` loop that fills `body`. */
  method BuildBulkBody(products: seq<ProductRow>) returns (body: seq<BulkItem>)
    ensures body == BulkBody(products)
  {
    body := [];
    var i := 0;
    while i < |products|
      invariant 0 <= i <= |products|
      invariant body + BulkBody(products[i..]) == BulkBody(products)
    {
      var pair := [IndexAction(ProductsIndex, products[i].prodid), Source(DocOf(products[i]))];
      assert products[i..][1..] == products[i + 1..];
      assert BulkBody(products[i..]) == pair + BulkBody(products[i + 1..]);
      assert body + pair + BulkBody(products[i + 1..]) == body + (pair + BulkBody(products[i + 1..]));
      body := body + pair;
      i := i + 1;
    }
    assert products[i..] == [];
  }

  /** Indexing one document: the target index is created on the fly, with no
      schema, when it does not exist; an existing document is replaced. */
  function Put(indices: map<string, Index>, name: string, id: int, doc: Doc): map<string, Index> {
    var ix := if name in indices then indices[name] else Index(None, map[]);
    indices[name := ix.(docs := ix.docs[id := doc])]
  }

  /** The effect of a bulk body, pair by pair, in order. */
  function ApplyBulk(indices: map<string, Index>, body: seq<BulkItem>): map<string, Index>
    decreases |body|
  {
    if |body| >= 2 && body[0].IndexAction? && body[1].Source? then
      ApplyBulk(Put(indices, body[0].index, body[0].id, body[1].doc), body[2..])
    else indices
  }

  /** The last row of `products` carrying `id`, if any. */
  function LastWithId(products: seq<ProductRow>, id: int): (r: Option<ProductRow>)
    ensures r.None? <==> forall i :: 0 <= i < |products| ==> products[i].prodid != id
  {
    if products == [] then None
    else
      var later := LastWithId(products[1..], id);
      if later.Some? then later
      else if products[0].prodid == id then Some(products[0])
      else None
  }

  function ProductDoc(indices: map<string, Index>, id: int): Option<Doc> {
    if ProductsIndex in indices && id in indices[ProductsIndex].docs
    then Some(indices[ProductsIndex].docs[id]) else None
  }

  /** Applying the bulk body of `products`: afterwards the document of every id
      that occurs is the one built from its LAST row, every other document is
      untouched, the schema is unchanged and no other index is affected. */
  lemma {:induction false} BulkSyncEffect(indices: map<string, Index>, products: seq<ProductRow>)
    ensures var after := ApplyBulk(indices, BulkBody(products));
      (products != [] ==> ProductsIndex in after)
      && (ProductsIndex in indices ==>
            ProductsIndex in after && after[ProductsIndex].schema == indices[ProductsIndex].schema)
      && (forall name :: name != ProductsIndex ==>
            (name in after <==> name in indices) && (name in indices ==> after[name] == indices[name]))
      && (forall id :: ProductDoc(after, id) ==
            match LastWithId(products, id)
            case Some(p) => Some(DocOf(p))
            case None => ProductDoc(indices, id))
    decreases |products|
  {
    if products != [] {
      var p := products[0];
      var mid := Put(indices, ProductsIndex, p.prodid, DocOf(p));
      var body := BulkBody(products);
      assert body[2..] == BulkBody(products[1..]);
      assert ApplyBulk(indices, body) == ApplyBulk(mid, BulkBody(products[1..]));
      BulkSyncEffect(mid, products[1..]);
    }
  }

  /** Whether each remote call of a routine succeeds (`false`: it throws). */
  datatype Reachability = Reachability(existsOk: bool, deleteOk: bool, createOk: bool, bulkOk: bool)

  /** The cluster as seen through the client: its indices and every bulk
      request it has received. */
  class Cluster {
    var indices: map<string, Index>
    var bulkLog: seq<BulkRequest>

    constructor (initial: map<string, Index>)
      ensures indices == initial && bulkLog == []
    {
      indices := initial;
      bulkLog := [];
    }

    /** `indices.exists`; `None` when the call throws. */
    method Exists(name: string, ok: bool) returns (r: Option<bool>)
      ensures r == if ok then Some(name in indices) else None
    {
      r := if ok then Some(name in indices) else None;
    }

    /** `indices.create`: refused when the index already exists. */
    method Create(name: string, schema: Schema, ok: bool) returns (created: bool)
      modifies this
      ensures created == (ok && name !in old(indices))
      ensures indices == if created then old(indices)[name := Index(Some(schema), map[])] else old(indices)
      ensures bulkLog == old(bulkLog)
    {
      created := ok && name !in indices;
      if created {
        indices := indices[name := Index(Some(schema), map[])];
      }
    }

    /** `indices.delete`: refused when the index does not exist. */
    method Delete(name: string, ok: bool) returns (deleted: bool)
      modifies this
      ensures deleted == (ok && name in old(indices))
      ensures indices == if deleted then old(indices) - {name} else old(indices)
      ensures bulkLog == old(bulkLog)
    {
      deleted := ok && name in indices;
      if deleted {
        indices := indices - {name};
      }
    }

    /** `bulk`: the request is sent (and logged) and, when the call returns,
        all of its actions are applied; a returned call with some items
        rejected is not represented. */
    method Bulk(req: BulkRequest, ok: bool) returns (done: bool)
      modifies this
      ensures done == ok
      ensures indices == if ok then ApplyBulk(old(indices), req.body) else old(indices)
      ensures bulkLog == old(bulkLog) + [req]
    {
      bulkLog := bulkLog + [req];
      done := ok;
      if ok {
        indices := ApplyBulk(indices, req.body);
      }
    }
  }

  /** What the start-up routine logs. */
  datatype SetupOutcome = Synced(count: nat) | NothingToSync | SetupFailed

  /** The index part of the start-up routine: create when absent, leave an
      existing index alone; `None` when the routine stops at a failure. */
  function EnsureIndex(indices: map<string, Index>, net: Reachability): Option<map<string, Index>> {
    if !net.existsOk then None
    else if ProductsIndex in indices then Some(indices)
    else if net.createOk then Some(indices[ProductsIndex := Index(Some(ServerSchema), map[])])
    else None
  }

  /** The indices after the start-up routine. */
  function SetupEffect(indices: map<string, Index>, net: Reachability,
                       products: Option<seq<ProductRow>>): map<string, Index>
  {
    match EnsureIndex(indices, net)
    case None => indices
    case Some(ready) =>
      if products.None? || products.value == [] || !net.bulkOk then ready
      else ApplyBulk(ready, BulkBody(products.value))
  }

  /** The bulk requests the start-up routine sends. */
  function SetupRequests(indices: map<string, Index>, net: Reachability,
                         products: Option<seq<ProductRow>>): seq<BulkRequest>
  {
    if EnsureIndex(indices, net).Some? && products.Some? && products.value != []
    then [BulkRequest(true, BulkBody(products.value))] else []
  }

  function SetupResult(indices: map<string, Index>, net: Reachability,
                       products: Option<seq<ProductRow>>): SetupOutcome
  {
    if EnsureIndex(indices, net).None? || products.None? then SetupFailed
    else if products.value == [] then NothingToSync
    else if net.bulkOk then Synced(|products.value|) else SetupFailed
  }

  /** `setupElasticsearch`: every failure is caught, so the routine always
      returns; `products` is the catalog query's result (`None` if it throws). */
  method SetupElasticsearch(c: Cluster, net: Reachability, products: Option<seq<ProductRow>>)
    returns (outcome: SetupOutcome)
    modifies c
    ensures c.indices == SetupEffect(old(c.indices), net, products)
    ensures c.bulkLog == old(c.bulkLog) + SetupRequests(old(c.indices), net, products)
    ensures outcome == SetupResult(old(c.indices), net, products)
  {
    var present := c.Exists(ProductsIndex, net.existsOk);
    if present.None? {
      return SetupFailed;
    }
    if !present.value {
      var created := c.Create(ProductsIndex, ServerSchema, net.createOk);
      if !created {
        return SetupFailed;
      }
    }
    if products.None? {
      return SetupFailed;
    }
    var rows := products.value;
    if |rows| > 0 {
      var body := BuildBulkBody(rows);
      var done := c.Bulk(BulkRequest(true, body), net.bulkOk);
      outcome := if done then Synced(|rows|) else SetupFailed;
    } else {
      outcome := NothingToSync;
    }
  }

  /** Start-up never changes the schema of an index that already exists, and
      creates the index with the fixed schema only when it was absent. */
  lemma SetupKeepsExistingSchema(indices: map<string, Index>, net: Reachability,
                                 products: Option<seq<ProductRow>>)
    ensures ProductsIndex in indices ==>
      var after := SetupEffect(indices, net, products);
      ProductsIndex in after && after[ProductsIndex].schema == indices[ProductsIndex].schema
    ensures ProductsIndex !in indices && net.existsOk && net.createOk ==>
      var after := SetupEffect(indices, net, products);
      ProductsIndex in after && after[ProductsIndex].schema == Some(ServerSchema)
  {
    var after := SetupEffect(indices, net, products);
    match EnsureIndex(indices, net)
    case None =>
    case Some(ready) =>
      if products.Some? && products.value != [] && net.bulkOk {
        BulkSyncEffect(ready, products.value);
      }
  }

  /** Start-up syncs the catalog whether or not the index existed before: once
      the index step succeeds and the bulk call goes through, every product's
      document is the one built from its last row. */
  lemma SetupSyncsEveryProduct(indices: map<string, Index>, net: Reachability,
                               rows: seq<ProductRow>, id: int)
    requires net.existsOk && net.bulkOk && (ProductsIndex in indices || net.createOk)
    requires LastWithId(rows, id).Some?
    ensures ProductDoc(SetupEffect(indices, net, Some(rows)), id) == Some(DocOf(LastWithId(rows, id).value))
  {
    var ready := EnsureIndex(indices, net).value;
    BulkSyncEffect(ready, rows);
  }

  /** Start-up sends at most one bulk request, always with `refresh: true`, and
      none at all for an empty catalog or when the index step failed; a failed
      index step leaves the cluster as it was. */
  lemma SetupRequestsShape(indices: map<string, Index>, net: Reachability,
                           products: Option<seq<ProductRow>>)
    ensures var reqs := SetupRequests(indices, net, products);
      |reqs| <= 1 && (forall k :: 0 <= k < |reqs| ==> reqs[k].refresh)
    ensures products == Some([]) ==>
      SetupRequests(indices, net, products) == []
      && (SetupResult(indices, net, products) != SetupFailed ==> SetupResult(indices, net, products) == NothingToSync)
    ensures EnsureIndex(indices, net).None? ==>
      SetupRequests(indices, net, products) == [] && SetupEffect(indices, net, products) == indices
  {
  }

  /** The indices after the re-creation script: delete when present, then
      create; every step stops the script when it fails. */
  function RecreateEffect(indices: map<string, Index>, net: Reachability): map<string, Index> {
    if !net.existsOk then indices
    else if ProductsIndex in indices && !net.deleteOk then indices
    else
      var cleared := indices - {ProductsIndex};
      if net.createOk then cleared[ProductsIndex := Index(Some(ScriptSchema), map[])] else cleared
  }

  /** `createIndex`: exists, delete if present, create; failures are caught
      and only logged. */
  method RecreateIndex(c: Cluster, net: Reachability) returns (created: bool)
    modifies c
    ensures c.indices == RecreateEffect(old(c.indices), net)
    ensures c.bulkLog == old(c.bulkLog)
    ensures created == (net.existsOk && (ProductsIndex in old(c.indices) ==> net.deleteOk) && net.createOk)
  {
    var present := c.Exists(ProductsIndex, net.existsOk);
    if present.None? {
      return false;
    }
    if present.value {
      var deleted := c.Delete(ProductsIndex, net.deleteOk);
      if !deleted {
        return false;
      }
    }
    created := c.Create(ProductsIndex, ScriptSchema, net.createOk);
  }

  /** A successful re-creation leaves exactly one fresh, empty "products" index
      with the fixed schema, whatever was there, and no other index changes. */
  lemma RecreateGivesFreshIndex(indices: map<string, Index>, net: Reachability)
    requires net.existsOk && net.deleteOk && net.createOk
    ensures var after := RecreateEffect(indices, net);
      ProductsIndex in after && after[ProductsIndex] == Index(Some(ServerSchema), map[])
      && forall name :: name != ProductsIndex ==>
           (name in after <==> name in indices) && (name in indices ==> after[name] == indices[name])
  {
    SchemasAgree();
  }

  /** Running the re-creation script twice ends in the same state as once. */
  lemma RecreateIdempotent(indices: map<string, Index>, net: Reachability)
    requires net.existsOk && net.deleteOk && net.createOk
    ensures RecreateEffect(RecreateEffect(indices, net), net) == RecreateEffect(indices, net)
  {
    var once := RecreateEffect(indices, net);
    var twice := RecreateEffect(once, net);
    assert twice.Keys == once.Keys;
  }

  /** A delete that succeeds followed by a create that fails leaves no
      "products" index at all: the old documents are gone. */
  lemma RecreateFailedCreateLosesIndex(indices: map<string, Index>, net: Reachability)
    requires net.existsOk && net.deleteOk && !net.createOk
    ensures ProductsIndex !in RecreateEffect(indices, net)
  {
  }

  /** The indices after the stand-alone sync script. */
  function SyncEffect(indices: map<string, Index>, bulkOk: bool,
                      products: Option<seq<ProductRow>>): map<string, Index>
  {
    if products.None? || products.value == [] || !bulkOk then indices
    else ApplyBulk(indices, BulkBody(products.value))
  }

  /** `syncProducts`: returns early on an empty catalog, otherwise sends one
      refreshing bulk request; errors are caught and logged. */
  method SyncProducts(c: Cluster, bulkOk: bool, products: Option<seq<ProductRow>>) returns (synced: bool)
    modifies c
    ensures c.indices == SyncEffect(old(c.indices), bulkOk, products)
    ensures c.bulkLog == old(c.bulkLog) +
      (if products.Some? && products.value != [] then [BulkRequest(true, BulkBody(products.value))] else [])
    ensures synced == (products.Some? && products.value != [] && bulkOk)
  {
    if products.None? {
      return false;
    }
    var rows := products.value;
    if |rows| == 0 {
      return false;
    }
    var body := BuildBulkBody(rows);
    synced := c.Bulk(BulkRequest(true, body), bulkOk);
  }

  /** The stand-alone sync writes into whatever "products" index exists (or
      one Elasticsearch creates on the fly), with the same per-document effect
      as the start-up sync. */
  lemma SyncMatchesSetupSync(indices: map<string, Index>, net: Reachability, rows: seq<ProductRow>)
    requires net.existsOk && ProductsIndex in indices
    ensures SyncEffect(indices, net.bulkOk, Some(rows)) == SetupEffect(indices, net, Some(rows))
  {
  }
}
