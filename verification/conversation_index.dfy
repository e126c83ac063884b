/**
 * The shared index of conversations (`conversations.json`): an ordered
 * sequence of metadata records, newest first. The handlers rewrite it with
 * array `filter`, `map` and `find`; each is a function here, with the facts
 * the handlers rely on.
 */
module ConversationIndex {
  import opened ChatTypes

  const DefaultTitle: string := "New Conversation"

  /** `title || "New Conversation"`: the title a new conversation gets. */
  function TitleOrDefault(title: Option<string>): (t: string)
    ensures t != ""
    ensures Truthy(title) ==> t == title.value
    ensures !Truthy(title) ==> t == DefaultTitle
  {
    if Truthy(title) then title.value else DefaultTitle
  }

  /** The set of ids the index mentions. */
  function IdSet(s: seq<Meta>): set<string>
  {
    set m | m in s :: m.id
  }

  /** Every title in the index is non-empty. */
  predicate TitlesNonEmpty(s: seq<Meta>)
  {
    forall i :: 0 <= i < |s| ==> s[i].title != ""
  }

  /** Position of the first record with the given id, or |s| when there is
      none: the search `Array.prototype.find` performs. */
  function FindIndex(s: seq<Meta>, id: string): (k: nat)
    ensures k <= |s|
    ensures forall j :: 0 <= j < k ==> s[j].id != id
    ensures k < |s| ==> s[k].id == id
  {
    if s == [] then 0 else if s[0].id == id then 0 else 1 + FindIndex(s[1..], id)
  }

  /** `conversations.find(c => c.id === id)`. */
  function FindById(s: seq<Meta>, id: string): Option<Meta>
  {
    var k := FindIndex(s, id);
    if k < |s| then Some(s[k]) else None
  }

  lemma FindByIdSpec(s: seq<Meta>, id: string)
    ensures FindById(s, id).None? <==> id !in IdSet(s)
    ensures FindById(s, id).Some? ==>
              exists k :: 0 <= k < |s| && s[k] == FindById(s, id).value && s[k].id == id
                          && forall j :: 0 <= j < k ==> s[j].id != id
  {
    var k := FindIndex(s, id);
    if k == |s| {
      forall m | m in s ensures m.id != id {
        var j :| 0 <= j < |s| && s[j] == m;
      }
    } else {
      assert s[k] in s;
    }
  }

  /** `conversations.filter(c => c.id !== id)`. */
  function DeleteById(s: seq<Meta>, id: string): (r: seq<Meta>)
    ensures |r| <= |s|
    ensures forall m :: m in r <==> m in s && m.id != id
  {
    if s == [] then []
    else if s[0].id != id then [s[0]] + DeleteById(s[1..], id)
    else DeleteById(s[1..], id)
  }

  /** Deleting keeps the order of what it keeps: deleting from a
      concatenation deletes from each part and concatenates. */
  lemma {:induction false} DeleteByIdConcat(a: seq<Meta>, b: seq<Meta>, id: string)
    ensures DeleteById(a + b, id) == DeleteById(a, id) + DeleteById(b, id)
  {
    if a == [] {
      assert a + b == b;
    } else {
      assert (a + b)[0] == a[0] && (a + b)[1..] == a[1..] + b;
      DeleteByIdConcat(a[1..], b, id);
    }
  }

  /** Deleting an id the index does not hold leaves it as it was. */
  lemma {:induction false} DeleteAbsent(s: seq<Meta>, id: string)
    requires id !in IdSet(s)
    ensures DeleteById(s, id) == s
  {
    if s != [] {
      assert s[0] in s;
      assert IdSet(s[1..]) <= IdSet(s) by {
        forall m | m in s[1..] ensures m in s { }
      }
      DeleteAbsent(s[1..], id);
    }
  }

  /** Number of records whose id is `id`. */
  function CountId(s: seq<Meta>, id: string): nat
  {
    if s == [] then 0 else (if s[0].id == id then 1 else 0) + CountId(s[1..], id)
  }

  /** Deleting removes exactly the records that carry the id. */
  lemma {:induction false} DeleteByIdLength(s: seq<Meta>, id: string)
    ensures |DeleteById(s, id)| == |s| - CountId(s, id)
  {
    if s != [] {
      DeleteByIdLength(s[1..], id);
    }
  }

  /** After a delete the id is gone and no other id is. */
  lemma IdSetDelete(s: seq<Meta>, id: string)
    ensures IdSet(DeleteById(s, id)) == IdSet(s) - {id}
  {
    var r := DeleteById(s, id);
    forall x | x in IdSet(s) - {id} ensures x in IdSet(r) {
      var m :| m in s && m.id == x;
      assert m in r;
    }
  }

  /** `conversations.map(c => c.id === id ? f(c) : c)`. */
  function MapById(s: seq<Meta>, id: string, f: Meta -> Meta): (r: seq<Meta>)
    ensures |r| == |s|
    ensures forall i :: 0 <= i < |s| && s[i].id == id ==> r[i] == f(s[i])
    ensures forall i :: 0 <= i < |s| && s[i].id != id ==> r[i] == s[i]
  {
    if s == [] then []
    else [if s[0].id == id then f(s[0]) else s[0]] + MapById(s[1..], id, f)
  }

  /** The rename handler's rewrite: new title and `updatedAt` for every
      record with the id; every other field and every other record kept. */
  function Renamed(s: seq<Meta>, id: string, title: string, now: string): (r: seq<Meta>)
    ensures |r| == |s|
    ensures forall i :: 0 <= i < |s| ==> r[i].id == s[i].id && r[i].createdAt == s[i].createdAt
    ensures forall i :: 0 <= i < |s| && s[i].id == id ==> r[i].title == title && r[i].updatedAt == now
    ensures forall i :: 0 <= i < |s| && s[i].id != id ==> r[i] == s[i]
  {
    MapById(s, id, (m: Meta) => m.(title := title, updatedAt := now))
  }

  /** The chat handler's refresh: new `updatedAt` for every record with the
      id; everything else kept. */
  function Touched(s: seq<Meta>, id: string, now: string): (r: seq<Meta>)
    ensures |r| == |s|
    ensures forall i :: 0 <= i < |s| ==>
              r[i].id == s[i].id && r[i].title == s[i].title && r[i].createdAt == s[i].createdAt
    ensures forall i :: 0 <= i < |s| && s[i].id == id ==> r[i].updatedAt == now
    ensures forall i :: 0 <= i < |s| && s[i].id != id ==> r[i] == s[i]
  {
    MapById(s, id, (m: Meta) => m.(updatedAt := now))
  }

  /** A rewrite that keeps every id, position by position, keeps the id set. */
  lemma IdSetSameIds(s: seq<Meta>, r: seq<Meta>)
    requires |r| == |s|
    requires forall i :: 0 <= i < |s| ==> r[i].id == s[i].id
    ensures IdSet(r) == IdSet(s)
  {
    forall x | x in IdSet(s) ensures x in IdSet(r) {
      var m :| m in s && m.id == x;
      var i :| 0 <= i < |s| && s[i] == m;
      assert r[i] in r;
    }
    forall x | x in IdSet(r) ensures x in IdSet(s) {
      var m :| m in r && m.id == x;
      var i :| 0 <= i < |r| && r[i] == m;
      assert s[i] in s;
    }
  }

  /** Renaming an id the index does not hold leaves it as it was. */
  lemma RenameAbsent(s: seq<Meta>, id: string, title: string, now: string)
    requires id !in IdSet(s)
    ensures Renamed(s, id, title, now) == s
  {
    var r := Renamed(s, id, title, now);
    forall i | 0 <= i < |s| ensures r[i] == s[i] {
      assert s[i] in s;
    }
  }

  /** Prepending a record adds its id to the id set. */
  lemma IdSetCons(m: Meta, s: seq<Meta>)
    ensures IdSet([m] + s) == {m.id} + IdSet(s)
  {
    assert m in [m] + s;
    forall x | x in IdSet(s) ensures x in IdSet([m] + s) {
      var n :| n in s && n.id == x;
      assert n in [m] + s;
    }
  }

  lemma DeleteKeepsTitles(s: seq<Meta>, id: string)
    requires TitlesNonEmpty(s)
    ensures TitlesNonEmpty(DeleteById(s, id))
  {
    var r := DeleteById(s, id);
    forall i | 0 <= i < |r| ensures r[i].title != "" {
      assert r[i] in r;
      var j :| 0 <= j < |s| && s[j] == r[i];
    }
  }

  /** Once a conversation is deleted, an earlier rename of it leaves no trace. */
  lemma {:induction false} DeleteAfterRename(s: seq<Meta>, id: string, title: string, now: string)
    ensures DeleteById(Renamed(s, id, title, now), id) == DeleteById(s, id)
  {
    if s != [] {
      var r := Renamed(s, id, title, now);
      assert r == [r[0]] + Renamed(s[1..], id, title, now);
      DeleteAfterRename(s[1..], id, title, now);
    }
  }
}
