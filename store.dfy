/**
 * The persistence vocabulary shared by every route: identifiers, HTTP errors,
 * documents in a table, and the way a document store finds, pages and
 * partially updates them.
 *
 * A table is a sequence of documents in insertion order. The store's
 * find_one, update_one and delete_one act on the FIRST document whose id
 * matches, which is what IndexOf computes.
 */
module Store {

  /** Document and row identifiers (one abstract type for every collection). */
  type Id = string

  datatype Option<T> = None | Some(value: T)

  /** An HTTPException raised by a route: its status code and its detail text. */
  datatype HttpError = HttpError(status: nat, detail: string)

  /** What a route returns: a value, or the HTTPException it raises. */
  datatype Result<T> = Ok(value: T) | Err(error: HttpError)

  /** A listing response: one page of records and the total `count`. */
  datatype Page<T> = Page(data: seq<T>, count: nat)

  /** A stored document: its `_id` and its fields. */
  datatype Doc<T> = Doc(id: Id, body: T)

  /** One field of a partial update: left unset by the caller, or set to a value. */
  datatype Field<T> = Unset | Set(value: T)

  predicate IsHexDigit(c: char) {
    '0' <= c <= '9' || 'a' <= c <= 'f' || 'A' <= c <= 'F'
  }

  /** ObjectId.is_valid on a string: exactly 24 hexadecimal digits. */
  predicate ValidId(id: Id) {
    |id| == 24 && forall i :: 0 <= i < |id| ==> IsHexDigit(id[i])
  }

  /** The ids present in a table. */
  function Ids<T>(table: seq<Doc<T>>): set<Id> {
    set j | 0 <= j < |table| :: table[j].id
  }

  /** True when no earlier document of the table carries the id of document i. */
  predicate FirstOf<T>(table: seq<Doc<T>>, i: nat)
    requires i < |table|
  {
    forall j :: 0 <= j < i ==> table[j].id != table[i].id
  }

  /** Position of the first document with this id, or -1 when there is none. */
  function IndexOf<T>(table: seq<Doc<T>>, id: Id): (k: int)
    ensures -1 <= k < |table|
    ensures k >= 0 <==> id in Ids(table)
    ensures k >= 0 ==> table[k].id == id && FirstOf(table, k)
  {
    if table == [] then -1
    else if table[0].id == id then 0
    else
      var k := IndexOf(table[1..], id);
      assert forall j :: 1 <= j < |table| ==> table[j] == table[1..][j - 1];
      if k < 0 then -1 else k + 1
  }

  /** The first document of document i's id is document i exactly when i is a first occurrence. */
  lemma IndexOfFirst<T>(table: seq<Doc<T>>, i: nat)
    requires i < |table|
    ensures IndexOf(table, table[i].id) == i <==> FirstOf(table, i)
  {
    if FirstOf(table, i) {
      assert table[i].id in Ids(table);
    }
  }

  /** Two tables with the same ids position by position have the same first occurrences. */
  lemma SameIdsSameFirst<T, U>(a: seq<Doc<T>>, b: seq<Doc<U>>, i: nat)
    requires |a| == |b| && i < |a|
    requires forall j :: 0 <= j < |a| ==> a[j].id == b[j].id
    ensures FirstOf(a, i) <==> FirstOf(b, i)
  {
  }

  /** The first match depends only on the ids, position by position. */
  lemma {:induction false} IndexOfSameIds<T, U>(a: seq<Doc<T>>, b: seq<Doc<U>>, id: Id)
    requires |a| == |b|
    requires forall j :: 0 <= j < |a| ==> a[j].id == b[j].id
    ensures IndexOf(a, id) == IndexOf(b, id)
  {
    if a != [] && a[0].id != id {
      IndexOfSameIds(a[1..], b[1..], id);
    }
  }

  /** find_one by _id: the first document with that id, if any. */
  function Find<T>(table: seq<Doc<T>>, id: Id): (r: Option<Doc<T>>)
    ensures r.Some? <==> id in Ids(table)
    ensures r.Some? ==> r.value.id == id && r.value in table
  {
    var k := IndexOf(table, id);
    if k < 0 then None else Some(table[k])
  }

  /** Appending a document with a fresh id makes it what find_one returns for that id. */
  lemma FindAppended<T>(table: seq<Doc<T>>, doc: Doc<T>)
    requires doc.id !in Ids(table)
    ensures IndexOf(table + [doc], doc.id) == |table|
    ensures Find(table + [doc], doc.id) == Some(doc)
    ensures Ids(table + [doc]) == Ids(table) + {doc.id}
  {
    var t := table + [doc];
    assert t[|table|] == doc;
    assert forall j :: 0 <= j < |table| ==> t[j] == table[j];
    assert forall j :: 0 <= j < |table| ==> t[j].id in Ids(table);
    IndexOfFirst(t, |table|);
  }

  /** delete_one by _id on document k: every other document keeps its place and contents. */
  function RemoveAt<T>(table: seq<Doc<T>>, k: nat): (r: seq<Doc<T>>)
    requires k < |table|
    ensures |r| + 1 == |table|
    ensures forall j :: 0 <= j < k ==> r[j] == table[j]
    ensures forall j :: k <= j < |r| ==> r[j] == table[j + 1]
  {
    table[..k] + table[k + 1..]
  }

  /** A cursor's .skip(skip).limit(limit) in the document store, where limit 0 means no limit. */
  function MongoPage<T>(s: seq<T>, skip: nat, limit: nat): (r: seq<T>)
    ensures skip >= |s| ==> r == []
    ensures skip < |s| && (limit == 0 || |s| - skip <= limit) ==> |r| == |s| - skip
    ensures skip < |s| && limit != 0 && limit < |s| - skip ==> |r| == limit
    ensures forall i :: 0 <= i < |r| ==> skip + i < |s| && r[i] == s[skip + i]
  {
    if skip >= |s| then []
    else if limit == 0 || |s| - skip <= limit then s[skip..]
    else s[skip..skip + limit]
  }

  /** SQL OFFSET skip LIMIT limit, where LIMIT 0 yields no rows. */
  function SqlPage<T>(s: seq<T>, skip: nat, limit: nat): (r: seq<T>)
    ensures |r| <= limit
    ensures skip >= |s| ==> r == []
    ensures skip < |s| ==> |r| == if |s| - skip <= limit then |s| - skip else limit
    ensures forall i :: 0 <= i < |r| ==> skip + i < |s| && r[i] == s[skip + i]
  {
    if skip >= |s| then []
    else if |s| - skip <= limit then s[skip..]
    else s[skip..skip + limit]
  }

  /** The value of one field after a `$set` of the caller's set fields. */
  function Patch<T>(current: T, f: Field<T>): T {
    if f.Set? then f.value else current
  }

  /** The first id of `wanted` that is not in `present`: the one a check loop reports. */
  function FirstAbsent(present: set<Id>, wanted: seq<Id>): (r: Option<Id>)
    ensures r.None? <==> forall j :: 0 <= j < |wanted| ==> wanted[j] in present
    ensures r.Some? ==> r.value !in present
    ensures r.Some? ==>
              exists k :: 0 <= k < |wanted| && wanted[k] == r.value &&
                          forall j :: 0 <= j < k ==> wanted[j] in present
  {
    if wanted == [] then None
    else if wanted[0] !in present then Some(wanted[0])
    else
      var r := FirstAbsent(present, wanted[1..]);
      assert forall j :: 1 <= j < |wanted| ==> wanted[j] == wanted[1..][j - 1];
      r
  }

  /** When every id before position i is present and the one at i is not, i is the one reported. */
  lemma {:induction false} FirstAbsentAt(present: set<Id>, wanted: seq<Id>, i: nat)
    requires i < |wanted| && wanted[i] !in present
    requires forall j :: 0 <= j < i ==> wanted[j] in present
    ensures FirstAbsent(present, wanted) == Some(wanted[i])
  {
    if i > 0 {
      assert wanted[0] in present;
      FirstAbsentAt(present, wanted[1..], i - 1);
    }
  }
}
