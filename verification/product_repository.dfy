/**
 * The product store: a table of product rows and the meaning of each query on
 * it (which rows a WHERE keeps, how ORDER BY ranks them, what LIMIT/OFFSET cut).
 */
module ProductRepo {
  import opened Common
  import opened Errors
  import opened Products
  import opened Seqs

  /** No two rows share an id (the id is the table's key). */
  ghost predicate UniqueIds(rows: seq<ProductRecord>) {
    forall i, j :: 0 <= i < j < |rows| ==> rows[i].id != rows[j].id
  }

  /** The row with the given id, or nothing. */
  function FindById(rows: seq<ProductRecord>, id: Uuid): (r: Option<ProductRecord>)
    ensures r.None? <==> forall k :: 0 <= k < |rows| ==> rows[k].id != id
    ensures r.Some? ==> r.value in rows && r.value.id == id
  {
    if rows == [] then None
    else if rows[0].id == id then Some(rows[0])
    else FindById(rows[1..], id)
  }

  /** A row with the given SKU, or nothing. */
  function FindBySku(rows: seq<ProductRecord>, sku: string): (r: Option<ProductRecord>)
    ensures r.None? <==> forall k :: 0 <= k < |rows| ==> rows[k].sku != sku
    ensures r.Some? ==> r.value in rows && r.value.sku == sku
  {
    if rows == [] then None
    else if rows[0].sku == sku then Some(rows[0])
    else FindBySku(rows[1..], sku)
  }

  /** A row after an UPDATE with the values of p: every column but id and created_at is rewritten. */
  function Overwritten(row: ProductRecord, p: ProductRecord): ProductRecord {
    p.(id := row.id, createdAt := row.createdAt)
  }

  /** UPDATE ... WHERE id = p.id over the whole table. */
  function Replace(rows: seq<ProductRecord>, p: ProductRecord): seq<ProductRecord> {
    seq(|rows|, k requires 0 <= k < |rows| => if rows[k].id == p.id then Overwritten(rows[k], p) else rows[k])
  }

  /** DELETE ... WHERE id = id over the whole table. */
  function Remove(rows: seq<ProductRecord>, id: Uuid): seq<ProductRecord> {
    Filter(rows, (r: ProductRecord) => r.id != id)
  }

  /** ORDER BY created_at DESC. */
  predicate NewestFirst(a: ProductRecord, b: ProductRecord) { a.createdAt >= b.createdAt }

  /** ORDER BY stock ASC. */
  predicate LeastStockFirst(a: ProductRecord, b: ProductRecord) { a.stock <= b.stock }

  /** ORDER BY name ASC, with names compared character by character. */
  predicate ByName(a: ProductRecord, b: ProductRecord) { StrLe(a.name, b.name) }

  /** WHERE category_id = c. */
  function InCategory(c: Uuid): ProductRecord -> bool {
    (p: ProductRecord) => p.categoryId == c
  }

  /** WHERE stock <= min_stock AND status = 'active'. */
  predicate IsLowAndActive(p: ProductRecord) { p.IsLowStock() && p.status == StatusActive }

  function LowerAscii(c: char): char {
    if 'A' <= c <= 'Z' then (c as int + 32) as char else c
  }

  function ToLower(s: string): string {
    seq(|s|, i requires 0 <= i < |s| => LowerAscii(s[i]))
  }

  /** needle occurs in hay starting at position i. */
  predicate OccursAt(hay: string, needle: string, i: nat) {
    i + |needle| <= |hay| && hay[i..i + |needle|] == needle
  }

  /** needle occurs somewhere in hay. */
  predicate ContainsSubstring(hay: string, needle: string) {
    exists i: nat | i <= |hay| :: OccursAt(hay, needle, i)
  }

  /** field ILIKE '%' || lower(q) || '%', as case-insensitive containment. */
  predicate ContainsIgnoringCase(field: string, q: string) {
    ContainsSubstring(ToLower(field), ToLower(q))
  }

  /** WHERE (name ILIKE .. OR description ILIKE .. OR sku ILIKE ..) AND status = 'active'. */
  function MatchesSearch(q: string): ProductRecord -> bool {
    (p: ProductRecord) =>
      (ContainsIgnoringCase(p.name, q) || ContainsIgnoringCase(p.description, q) || ContainsIgnoringCase(p.sku, q))
      && p.status == StatusActive
  }

  lemma OrdersArePreorders()
    ensures TotalPreorder(NewestFirst)
    ensures TotalPreorder(LeastStockFirst)
    ensures TotalPreorder(ByName)
  {
    forall a: ProductRecord, b: ProductRecord ensures ByName(a, b) || ByName(b, a) {
      StrLeTotal(a.name, b.name);
    }
    forall a: ProductRecord, b: ProductRecord, c: ProductRecord | ByName(a, b) && ByName(b, c)
      ensures ByName(a, c)
    {
      StrLeTransitive(a.name, b.name, c.name);
    }
  }

  /** An UPDATE leaves every id where it was, so the key stays unique. */
  lemma ReplaceKeepsIds(rows: seq<ProductRecord>, p: ProductRecord)
    ensures |Replace(rows, p)| == |rows|
    ensures forall k :: 0 <= k < |rows| ==> Replace(rows, p)[k].id == rows[k].id
    ensures UniqueIds(rows) ==> UniqueIds(Replace(rows, p))
  {
  }

  /** An UPDATE whose id matches no row changes nothing. */
  lemma ReplaceMissChangesNothing(rows: seq<ProductRecord>, p: ProductRecord)
    requires FindById(rows, p.id).None?
    ensures Replace(rows, p) == rows
  {
  }

  /**
   * Looking a row up after an UPDATE finds the same row as before, rewritten
   * with p's values (keeping id and created_at) when it is the updated one.
   */
  lemma {:induction false} FindAfterReplace(rows: seq<ProductRecord>, p: ProductRecord, id: Uuid)
    ensures FindById(Replace(rows, p), id) ==
              match FindById(rows, id)
              case None => None
              case Some(r) => Some(if r.id == p.id then Overwritten(r, p) else r)
  {
    if rows != [] {
      assert Replace(rows, p)[1..] == Replace(rows[1..], p);
      FindAfterReplace(rows[1..], p, id);
    }
  }

  /** The product table. */
  class ProductRepository {
    var rows: seq<ProductRecord>

    ghost predicate Valid()
      reads this
    {
      UniqueIds(rows)
    }

    constructor ()
      ensures Valid() && rows == []
    {
      rows := [];
    }

    /** INSERT of a product whose id is a fresh one. */
    method Create(p: ProductRecord, fails: bool) returns (err: Option<Error>)
      requires Valid()
      requires FindById(rows, p.id).None?
      modifies this
      ensures Valid()
      ensures err == (if fails then Some(StorageFailure("create product")) else None)
      ensures rows == if fails then old(rows) else old(rows) + [p]
    {
      if fails {
        return Some(StorageFailure("create product"));
      }
      rows := rows + [p];
      return None;
    }

    /** A miss is an empty result, not an error; only a store failure is an error. */
    method GetByID(id: Uuid, fails: bool) returns (r: Result<Option<ProductRecord>, Error>)
      ensures r.Failure? <==> fails
      ensures r.Failure? ==> r.error == StorageFailure("get product by ID")
      ensures r.Success? ==> r.value == FindById(rows, id)
      ensures r.Success? ==> (r.value.None? <==> forall k :: 0 <= k < |rows| ==> rows[k].id != id)
      ensures r.Success? && r.value.Some? ==> r.value.value in rows && r.value.value.id == id
    {
      if fails {
        return Failure(StorageFailure("get product by ID"));
      }
      return Success(FindById(rows, id));
    }

    /** A miss is an empty result, not an error; only a store failure is an error. */
    method GetBySKU(sku: string, fails: bool) returns (r: Result<Option<ProductRecord>, Error>)
      ensures r.Failure? <==> fails
      ensures r.Failure? ==> r.error == StorageFailure("get product by SKU")
      ensures r.Success? ==> r.value == FindBySku(rows, sku)
      ensures r.Success? ==> (r.value.None? <==> forall k :: 0 <= k < |rows| ==> rows[k].sku != sku)
      ensures r.Success? && r.value.Some? ==> r.value.value in rows && r.value.value.sku == sku
    {
      if fails {
        return Failure(StorageFailure("get product by SKU"));
      }
      return Success(FindBySku(rows, sku));
    }

    /** Newest first, then LIMIT/OFFSET; a negative limit or offset is refused by the database. */
    method GetAll(limit: int, offset: int, fails: bool) returns (r: Result<seq<ProductRecord>, Error>)
      ensures r.Failure? <==> fails || limit < 0 || offset < 0
      ensures r.Success? ==> r.value == Page(Sort(rows, NewestFirst), limit, offset)
      ensures r.Success? ==> |r.value| <= limit && SortedBy(r.value, NewestFirst)
      ensures r.Success? ==> forall p :: p in r.value ==> p in rows
    {
      if fails || limit < 0 || offset < 0 {
        return Failure(StorageFailure("get all products"));
      }
      var sorted := Sort(rows, NewestFirst);
      OrdersArePreorders();
      SortIsSortedPermutation(rows, NewestFirst);
      PageOfSorted(sorted, NewestFirst, limit, offset);
      r := Success(Page(sorted, limit, offset));
      forall p | p in r.value ensures p in rows {
        assert p in multiset(sorted);
      }
    }

    /** The rows of one category, newest first, then LIMIT/OFFSET. */
    method GetByCategory(categoryId: Uuid, limit: int, offset: int, fails: bool)
      returns (r: Result<seq<ProductRecord>, Error>)
      ensures r.Failure? <==> fails || limit < 0 || offset < 0
      ensures r.Success? ==> r.value == Page(Sort(Filter(rows, InCategory(categoryId)), NewestFirst), limit, offset)
      ensures r.Success? ==> |r.value| <= limit && SortedBy(r.value, NewestFirst)
      ensures r.Success? ==> forall p :: p in r.value ==> p in rows && p.categoryId == categoryId
    {
      if fails || limit < 0 || offset < 0 {
        return Failure(StorageFailure("get products by category"));
      }
      var matched := Select(InCategory(categoryId));
      var sorted := Sort(matched, NewestFirst);
      OrdersArePreorders();
      SortIsSortedPermutation(matched, NewestFirst);
      PageOfSorted(sorted, NewestFirst, limit, offset);
      r := Success(Page(sorted, limit, offset));
      forall p | p in r.value ensures p in rows && p.categoryId == categoryId {
        assert p in multiset(sorted);
      }
    }

    /** Exactly the active rows at or below their minimum, least stock first. */
    method GetLowStockProducts(fails: bool) returns (r: Result<seq<ProductRecord>, Error>)
      ensures r.Failure? <==> fails
      ensures r.Success? ==> r.value == Sort(Filter(rows, IsLowAndActive), LeastStockFirst)
      ensures r.Success? ==> forall p :: p in r.value <==> p in rows && p.IsLowStock() && p.status == StatusActive
      ensures r.Success? ==> SortedBy(r.value, LeastStockFirst)
      ensures r.Success? ==> multiset(r.value) == multiset(Filter(rows, IsLowAndActive))
    {
      if fails {
        return Failure(StorageFailure("get low stock products"));
      }
      var matched := Select(IsLowAndActive);
      OrdersArePreorders();
      SortIsSortedPermutation(matched, LeastStockFirst);
      r := Success(Sort(matched, LeastStockFirst));
      forall p ensures p in r.value <==> p in matched {
        assert p in r.value <==> p in multiset(r.value);
      }
    }

    /** Active rows whose name, description or SKU contains the query, by name, then LIMIT/OFFSET. */
    method Search(query: string, limit: int, offset: int, fails: bool) returns (r: Result<seq<ProductRecord>, Error>)
      ensures r.Failure? <==> fails || limit < 0 || offset < 0
      ensures r.Success? ==> r.value == Page(Sort(Filter(rows, MatchesSearch(query)), ByName), limit, offset)
      ensures r.Success? ==> |r.value| <= limit && SortedBy(r.value, ByName)
      ensures r.Success? ==> forall p :: p in r.value ==>
                p in rows && p.status == StatusActive &&
                (ContainsIgnoringCase(p.name, query) || ContainsIgnoringCase(p.description, query) ||
                 ContainsIgnoringCase(p.sku, query))
    {
      if fails || limit < 0 || offset < 0 {
        return Failure(StorageFailure("search products"));
      }
      var matched := Select(MatchesSearch(query));
      var sorted := Sort(matched, ByName);
      OrdersArePreorders();
      SortIsSortedPermutation(matched, ByName);
      PageOfSorted(sorted, ByName, limit, offset);
      r := Success(Page(sorted, limit, offset));
      forall p | p in r.value ensures p in matched {
        assert p in multiset(sorted);
      }
    }

    /** The WHERE clause: scans the table and keeps the rows that satisfy the condition. */
    method Select(keep: ProductRecord -> bool) returns (matched: seq<ProductRecord>)
      ensures matched == Filter(rows, keep)
    {
      matched := [];
      for i := 0 to |rows|
        invariant matched == Filter(rows[..i], keep)
      {
        FilterAppend(rows[..i], rows[i], keep);
        assert rows[..i + 1] == rows[..i] + [rows[i]];
        if keep(rows[i]) {
          matched := matched + [rows[i]];
        }
      }
      assert rows[..|rows|] == rows;
    }

    /** Rewrites the row with p's id (all columns but id and created_at); no match is not an error. */
    method Update(p: ProductRecord, fails: bool) returns (err: Option<Error>)
      requires Valid()
      modifies this
      ensures Valid()
      ensures err == (if fails then Some(StorageFailure("update product")) else None)
      ensures rows == if fails then old(rows) else Replace(old(rows), p)
    {
      if fails {
        return Some(StorageFailure("update product"));
      }
      ReplaceKeepsIds(rows, p);
      rows := Replace(rows, p);
      return None;
    }

    /** Removes the row with the id; a missing id is not an error. */
    method Delete(id: Uuid, fails: bool) returns (err: Option<Error>)
      requires Valid()
      modifies this
      ensures Valid()
      ensures err == (if fails then Some(StorageFailure("delete product")) else None)
      ensures rows == if fails then old(rows) else Remove(old(rows), id)
      ensures !fails ==> forall p :: p in rows <==> p in old(rows) && p.id != id
    {
      if fails {
        return Some(StorageFailure("delete product"));
      }
      RemoveKeepsUniqueIds(rows, id);
      rows := Remove(rows, id);
      return None;
    }
  }

  lemma {:induction false} RemoveKeepsUniqueIds(rows: seq<ProductRecord>, id: Uuid)
    requires UniqueIds(rows)
    ensures UniqueIds(Remove(rows, id))
  {
    if rows != [] {
      RemoveKeepsUniqueIds(rows[1..], id);
      var rest := Remove(rows[1..], id);
      assert forall p :: p in rest ==> p in rows[1..];
      forall p | p in rest ensures p.id != rows[0].id {
        var k :| 0 <= k < |rows[1..]| && rows[1..][k] == p;
        assert rows[k + 1] == p;
      }
    }
  }
}
