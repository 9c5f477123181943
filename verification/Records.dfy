/** A NetBird collection: the list a List call returns, each record under its own id. */
module Records {
  import opened Api

  datatype Rec<+T> = Rec(id: Id, body: T)

  predicate Has<T>(rs: seq<Rec<T>>, id: Id) {
    exists i :: 0 <= i < |rs| && rs[i].id == id
  }

  /** Ids are non-empty, were issued before next and name one record each. */
  ghost predicate WellFormed<T>(rs: seq<Rec<T>>, next: Id) {
    && 0 < next
    && (forall i :: 0 <= i < |rs| ==> 0 < rs[i].id < next)
    && DistinctIds(rs)
  }

  ghost predicate DistinctIds<T>(rs: seq<Rec<T>>) {
    forall i, j :: 0 <= i < j < |rs| ==> rs[i].id != rs[j].id
  }

  function Get<T>(rs: seq<Rec<T>>, id: Id): (r: Rec<T>)
    requires Has(rs, id)
    ensures r in rs && r.id == id
  {
    if rs[0].id == id then rs[0] else Get(rs[1..], id)
  }

  /** The list without the record under id. */
  function Remove<T(!new)>(rs: seq<Rec<T>>, id: Id): (r: seq<Rec<T>>)
    ensures forall x :: x in r <==> x in rs && x.id != id
  {
    if rs == [] then []
    else if rs[0].id == id then Remove(rs[1..], id)
    else
      assert forall x :: x in rs <==> x == rs[0] || x in rs[1..];
      [rs[0]] + Remove(rs[1..], id)
  }

  /** The list with the record under id carrying a new body, at its old place. */
  function Put<T>(rs: seq<Rec<T>>, id: Id, body: T): (r: seq<Rec<T>>)
    ensures |r| == |rs|
    ensures forall i :: 0 <= i < |rs| ==> r[i] == if rs[i].id == id then Rec(id, body) else rs[i]
  {
    seq(|rs|, i requires 0 <= i < |rs| => if rs[i].id == id then Rec(id, body) else rs[i])
  }

  lemma {:induction false} RemoveKeepsWellFormed<T(!new)>(rs: seq<Rec<T>>, id: Id, next: Id)
    requires WellFormed(rs, next)
    ensures WellFormed(Remove(rs, id), next)
    ensures !Has(Remove(rs, id), id)
  {
    var r := Remove(rs, id);
    forall i | 0 <= i < |r| ensures 0 < r[i].id < next && r[i].id != id { assert r[i] in r; }
    RemoveDistinct(rs, id);
  }

  lemma {:induction false} RemoveDistinct<T(!new)>(rs: seq<Rec<T>>, id: Id)
    requires DistinctIds(rs)
    ensures DistinctIds(Remove(rs, id))
  {
    if rs != [] {
      RemoveDistinct(rs[1..], id);
      var t := Remove(rs[1..], id);
      forall j | 0 <= j < |t| ensures t[j].id != rs[0].id {
        assert t[j] in rs[1..];
      }
      assert Remove(rs, id) == if rs[0].id == id then t else [rs[0]] + t;
    }
  }

  lemma AppendKeepsWellFormed<T>(rs: seq<Rec<T>>, next: Id, next': Id, body: T)
    requires WellFormed(rs, next) && next < next'
    ensures WellFormed(rs + [Rec(next' - 1, body)], next')
  {
  }

  lemma PutKeepsWellFormed<T>(rs: seq<Rec<T>>, id: Id, body: T, next: Id)
    requires WellFormed(rs, next)
    ensures WellFormed(Put(rs, id, body), next)
    ensures Has(rs, id) ==> Rec(id, body) in Put(rs, id, body)
  {
    if Has(rs, id) {
      var i :| 0 <= i < |rs| && rs[i].id == id;
      assert Put(rs, id, body)[i] == Rec(id, body);
    }
  }

  /** Writing what is already there changes nothing. */
  lemma PutOfSame<T>(rs: seq<Rec<T>>, id: Id, body: T, next: Id)
    requires WellFormed(rs, next) && Rec(id, body) in rs
    ensures Put(rs, id, body) == rs && Has(rs, id) && id != NO_ID
  {
    var k :| 0 <= k < |rs| && rs[k] == Rec(id, body);
    forall i | 0 <= i < |rs| ensures Put(rs, id, body)[i] == rs[i] {
      if rs[i].id == id { assert i == k; }
    }
  }

  /** Two records of a well-formed list under one id are the same record. */
  lemma SameId<T>(rs: seq<Rec<T>>, next: Id, x: Rec<T>, y: Rec<T>)
    requires WellFormed(rs, next) && x in rs && y in rs && x.id == y.id
    ensures x == y
  {
  }
}
