/** The trie's database: columns of entries in key order, batches of writes, and prefix scans. */
module BonsaiDb {
  import opened Primitives
  import opened Bytes

  type Key = seq<Byte>
  type Value = seq<Byte>
  type Column = nat

  datatype Entry = Entry(key: Key, value: Value)

  datatype DatabaseKey = Trie(bytes: Key) | Flat(bytes: Key) | TrieLog(bytes: Key)

  datatype DatabaseKeyMapping = DatabaseKeyMapping(flat: Column, trie: Column, trieLog: Column)

  function ColumnOf(m: DatabaseKeyMapping, key: DatabaseKey): Column {
    match key
    case Trie(_) => m.trie
    case Flat(_) => m.flat
    case TrieLog(_) => m.trieLog
  }

  // ----- The order of keys

  predicate Less(a: Key, b: Key) {
    b != [] && (a == [] || a[0] < b[0] || (a[0] == b[0] && Less(a[1..], b[1..])))
  }

  predicate StartsWith(key: Key, prefix: Key) {
    prefix == [] || (key != [] && key[0] == prefix[0] && StartsWith(key[1..], prefix[1..]))
  }

  lemma {:induction false} StartsWithIsPrefix(key: Key, prefix: Key)
    ensures StartsWith(key, prefix) <==> prefix <= key
  {
    if prefix != [] && key != [] && key[0] == prefix[0] {
      StartsWithIsPrefix(key[1..], prefix[1..]);
      assert key == [key[0]] + key[1..] && prefix == [prefix[0]] + prefix[1..];
    }
  }

  /** Keys with a prefix are not before it. */
  lemma {:induction false} PrefixedNotBefore(key: Key, prefix: Key)
    requires StartsWith(key, prefix)
    ensures !Less(key, prefix)
  {
    if prefix != [] {
      PrefixedNotBefore(key[1..], prefix[1..]);
    }
  }

  /** Once past the keys with a prefix, there are no more of them. */
  lemma {:induction false} PrefixedContiguous(a: Key, b: Key, prefix: Key)
    requires !Less(a, prefix) && !StartsWith(a, prefix) && Less(a, b)
    ensures !StartsWith(b, prefix)
  {
    if a != [] && b != [] && a[0] == b[0] && a[0] == prefix[0] {
      PrefixedContiguous(a[1..], b[1..], prefix[1..]);
    }
  }

  lemma {:induction false} LessTransitive(a: Key, b: Key, c: Key)
    requires Less(a, b) && Less(b, c)
    ensures Less(a, c)
  {
    if a != [] && a[0] == b[0] && b[0] == c[0] {
      LessTransitive(a[1..], b[1..], c[1..]);
    }
  }

  lemma {:induction false} LessTotal(a: Key, b: Key)
    ensures Less(a, b) || a == b || Less(b, a)
    ensures !(Less(a, b) && Less(b, a)) && !Less(a, a)
  {
    if a != [] && b != [] && a[0] == b[0] {
      LessTotal(a[1..], b[1..]);
      assert a == [a[0]] + a[1..] && b == [b[0]] + b[1..];
    }
    if a != [] {
      LessTotal(a[1..], a[1..]);
    }
  }

  // ----- A column

  predicate Sorted(es: seq<Entry>) {
    forall i, j | 0 <= i < j < |es| :: Less(es[i].key, es[j].key)
  }

  function Lookup(es: seq<Entry>, key: Key): Option<Value> {
    if es == [] then None else if es[0].key == key then Some(es[0].value) else Lookup(es[1..], key)
  }

  function Put(es: seq<Entry>, key: Key, value: Value): seq<Entry> {
    if es == [] || Less(key, es[0].key) then [Entry(key, value)] + es
    else if es[0].key == key then [Entry(key, value)] + es[1..]
    else [es[0]] + Put(es[1..], key, value)
  }

  function Delete(es: seq<Entry>, key: Key): seq<Entry> {
    if es == [] then [] else if es[0].key == key then es[1..] else [es[0]] + Delete(es[1..], key)
  }

  /** `key` is before all entries. */
  predicate Below(key: Key, es: seq<Entry>) {
    forall k | 0 <= k < |es| :: Less(key, es[k].key)
  }

  lemma SortedTail(es: seq<Entry>)
    requires Sorted(es) && es != []
    ensures Sorted(es[1..]) && Below(es[0].key, es[1..])
  {
  }

  lemma SortedCons(e: Entry, es: seq<Entry>)
    requires Sorted(es) && Below(e.key, es)
    ensures Sorted([e] + es)
  {
  }

  lemma BelowTransitive(key: Key, key': Key, es: seq<Entry>)
    requires Below(key', es) && Less(key, key')
    ensures Below(key, es)
  {
    forall k | 0 <= k < |es| ensures Less(key, es[k].key) {
      LessTransitive(key, key', es[k].key);
    }
  }

  lemma {:induction false} LookupBelow(key: Key, es: seq<Entry>)
    requires Below(key, es)
    ensures Lookup(es, key) == None
  {
    if es != [] {
      LessTotal(key, es[0].key);
      LookupBelow(key, es[1..]);
    }
  }

  lemma {:induction false} PutMeaning(es: seq<Entry>, key: Key, value: Value, k: Key)
    requires Sorted(es)
    ensures Sorted(Put(es, key, value))
    ensures Lookup(Put(es, key, value), k) == if k == key then Some(value) else Lookup(es, k)
    ensures Below(k, es) && Less(k, key) ==> Below(k, Put(es, key, value))
    decreases es
  {
    if es != [] {
      SortedTail(es);
      var rest := es[1..];
      if Less(key, es[0].key) {
        BelowTransitive(key, es[0].key, rest);
        SortedCons(Entry(key, value), es);
        assert ([Entry(key, value)] + es)[1..] == es;
      } else if es[0].key == key {
        SortedCons(Entry(key, value), rest);
        assert ([Entry(key, value)] + rest)[1..] == rest;
      } else {
        LessTotal(es[0].key, key);
        PutMeaning(rest, key, value, k);
        PutMeaning(rest, key, value, es[0].key);
        SortedCons(es[0], Put(rest, key, value));
        assert ([es[0]] + Put(rest, key, value))[1..] == Put(rest, key, value);
      }
    }
  }

  lemma {:induction false} DeleteMeaning(es: seq<Entry>, key: Key, k: Key)
    requires Sorted(es)
    ensures Sorted(Delete(es, key))
    ensures Lookup(Delete(es, key), k) == if k == key then None else Lookup(es, k)
    ensures Below(k, es) ==> Below(k, Delete(es, key))
    decreases es
  {
    if es != [] {
      SortedTail(es);
      var rest := es[1..];
      if es[0].key == key {
        LookupBelow(key, rest);
      } else {
        DeleteMeaning(rest, key, k);
        DeleteMeaning(rest, key, es[0].key);
        SortedCons(es[0], Delete(rest, key));
        assert ([es[0]] + Delete(rest, key))[1..] == Delete(rest, key);
      }
    }
  }

  // ----- Prefix scans

  /** The entries from the prefix on, in order. */
  function Seek(es: seq<Entry>, prefix: Key): seq<Entry> {
    if es != [] && Less(es[0].key, prefix) then Seek(es[1..], prefix) else es
  }

  function WhilePrefixed(es: seq<Entry>, prefix: Key): seq<Entry> {
    if es != [] && StartsWith(es[0].key, prefix) then [es[0]] + WhilePrefixed(es[1..], prefix) else []
  }

  function ScanPrefix(es: seq<Entry>, prefix: Key): seq<Entry> {
    WhilePrefixed(Seek(es, prefix), prefix)
  }

  lemma {:induction false} WhileTaken(es: seq<Entry>, prefix: Key, n: nat)
    ensures WhilePrefixed(Taken(es, n), prefix) == Taken(WhilePrefixed(es, prefix), n)
  {
    if es != [] && n > 0 && StartsWith(es[0].key, prefix) {
      WhileTaken(es[1..], prefix, n - 1);
      assert Taken(es, n)[1..] == Taken(es[1..], n - 1);
    }
  }

  /** What should come out: all entries with the prefix. */
  function WithPrefix(es: seq<Entry>, prefix: Key): seq<Entry> {
    if es == [] then []
    else if StartsWith(es[0].key, prefix) then [es[0]] + WithPrefix(es[1..], prefix)
    else WithPrefix(es[1..], prefix)
  }

  lemma {:induction false} NoneWithPrefix(es: seq<Entry>, prefix: Key)
    requires forall k | 0 <= k < |es| :: !StartsWith(es[k].key, prefix)
    ensures WithPrefix(es, prefix) == []
  {
    if es != [] {
      NoneWithPrefix(es[1..], prefix);
    }
  }

  lemma {:induction false} WhileIsAll(es: seq<Entry>, prefix: Key)
    requires Sorted(es) && (es != [] ==> !Less(es[0].key, prefix))
    ensures WhilePrefixed(es, prefix) == WithPrefix(es, prefix)
  {
    if es != [] {
      SortedTail(es);
      if StartsWith(es[0].key, prefix) {
        if |es| > 1 && Less(es[1].key, prefix) {
          LessTransitive(es[0].key, es[1].key, prefix);
        }
        WhileIsAll(es[1..], prefix);
      } else {
        forall k | 0 <= k < |es| ensures !StartsWith(es[k].key, prefix) {
          if k > 0 {
            PrefixedContiguous(es[0].key, es[k].key, prefix);
          }
        }
        NoneWithPrefix(es, prefix);
      }
    }
  }

  /** Stopping at the first key without the prefix misses none. */
  lemma {:induction false} ScanIsComplete(es: seq<Entry>, prefix: Key)
    requires Sorted(es)
    ensures ScanPrefix(es, prefix) == WithPrefix(es, prefix)
  {
    if es != [] && Less(es[0].key, prefix) {
      SortedTail(es);
      if StartsWith(es[0].key, prefix) {
        PrefixedNotBefore(es[0].key, prefix);
      }
      ScanIsComplete(es[1..], prefix);
    } else {
      WhileIsAll(es, prefix);
    }
  }

  lemma {:induction false} WithPrefixMeaning(es: seq<Entry>, prefix: Key, e: Entry)
    ensures e in WithPrefix(es, prefix) <==> e in es && StartsWith(e.key, prefix)
  {
    if es != [] {
      WithPrefixMeaning(es[1..], prefix, e);
      assert es == [es[0]] + es[1..];
    }
  }

  // ----- The store and batches

  type Store = map<Column, seq<Entry>>

  function Entries(s: Store, c: Column): seq<Entry> {
    if c in s then s[c] else []
  }

  ghost predicate ValidStore(s: Store) {
    forall c | c in s :: Sorted(s[c])
  }

  function Get(s: Store, c: Column, key: Key): Option<Value> {
    Lookup(Entries(s, c), key)
  }

  datatype Op = PutOp(column: Column, key: Key, value: Value) | DeleteOp(column: Column, key: Key)

  function ApplyOp(s: Store, op: Op): Store {
    match op
    case PutOp(c, key, value) => s[c := Put(Entries(s, c), key, value)]
    case DeleteOp(c, key) => s[c := Delete(Entries(s, c), key)]
  }

  function ApplyOps(s: Store, ops: seq<Op>): Store {
    if ops == [] then s else ApplyOp(ApplyOps(s, ops[..|ops| - 1]), ops[|ops| - 1])
  }

  /** What the last operation on a key leaves there; no value if there is no operation on it. */
  function LastWrite(ops: seq<Op>, c: Column, key: Key): Option<Option<Value>> {
    if ops == [] then None
    else
      var op := ops[|ops| - 1];
      if op.column == c && op.key == key then Some(if op.PutOp? then Some(op.value) else None)
      else LastWrite(ops[..|ops| - 1], c, key)
  }

  lemma OpMeaning(s: Store, op: Op, c: Column, key: Key)
    requires ValidStore(s)
    ensures ValidStore(ApplyOp(s, op))
    ensures Get(ApplyOp(s, op), c, key)
         == if op.column == c && op.key == key then (if op.PutOp? then Some(op.value) else None) else Get(s, c, key)
  {
    match op
    case PutOp(c', key', value) => PutMeaning(Entries(s, c'), key', value, key);
    case DeleteOp(c', key') => DeleteMeaning(Entries(s, c'), key', key);
  }

  /** After a batch every key has what its last write in the batch says, and the others are as before. */
  lemma {:induction false} BatchMeaning(s: Store, ops: seq<Op>, c: Column, key: Key)
    requires ValidStore(s)
    ensures ValidStore(ApplyOps(s, ops))
    ensures Get(ApplyOps(s, ops), c, key)
         == match LastWrite(ops, c, key) case Some(v) => v case None => Get(s, c, key)
    decreases ops
  {
    if ops != [] {
      BatchMeaning(s, ops[..|ops| - 1], c, key);
      OpMeaning(ApplyOps(s, ops[..|ops| - 1]), ops[|ops| - 1], c, key);
    }
  }

  function Deletions(c: Column, es: seq<Entry>): (ops: seq<Op>)
    ensures |ops| == |es| && forall k | 0 <= k < |es| :: ops[k] == DeleteOp(c, es[k].key)
  {
    seq(|es|, k requires 0 <= k < |es| => DeleteOp(c, es[k].key))
  }

  lemma {:induction false} LastDeletion(ops: seq<Op>, c: Column, key: Key)
    requires forall k | 0 <= k < |ops| :: ops[k].DeleteOp?
    ensures LastWrite(ops, c, key) == if DeleteOp(c, key) in ops then Some(None) else None
  {
    if ops != [] {
      LastDeletion(ops[..|ops| - 1], c, key);
      assert ops == ops[..|ops| - 1] + [ops[|ops| - 1]];
    }
  }

  lemma {:induction false} LookupEntry(es: seq<Entry>, key: Key)
    ensures Lookup(es, key).Some? ==> Entry(key, Lookup(es, key).value) in es
  {
    if es != [] && es[0].key != key {
      LookupEntry(es[1..], key);
    }
  }

  ghost predicate HasKey(es: seq<Entry>, key: Key) {
    exists k :: 0 <= k < |es| && es[k].key == key
  }

  /** Deleting the keys of some entries removes exactly them, and touches no other column. */
  lemma DeletionsMeaning(s: Store, c: Column, found: seq<Entry>, c': Column, key: Key)
    requires ValidStore(s)
    ensures var s' := ApplyOps(s, Deletions(c, found));
            && ValidStore(s')
            && Get(s', c', key) == if c' == c && HasKey(found, key) then None else Get(s, c', key)
  {
    var ops := Deletions(c, found);
    BatchMeaning(s, ops, c', key);
    LastDeletion(ops, c', key);
    if c' == c && HasKey(found, key) {
      var k :| 0 <= k < |found| && found[k].key == key;
      assert ops[k] == DeleteOp(c', key);
    }
  }

  lemma {:induction false} LookupIn(es: seq<Entry>, e: Entry)
    requires Sorted(es) && e in es
    ensures Lookup(es, e.key) == Some(e.value)
  {
    SortedTail(es);
    if e in es[1..] {
      LessTotal(es[0].key, e.key);
      LookupIn(es[1..], e);
    }
  }

  lemma {:induction false} WithPrefixSorted(es: seq<Entry>, prefix: Key)
    requires Sorted(es)
    ensures Sorted(WithPrefix(es, prefix))
  {
    if es != [] {
      SortedTail(es);
      WithPrefixSorted(es[1..], prefix);
      if StartsWith(es[0].key, prefix) {
        var rest := WithPrefix(es[1..], prefix);
        forall k | 0 <= k < |rest| ensures Less(es[0].key, rest[k].key) {
          WithPrefixMeaning(es[1..], prefix, rest[k]);
        }
        SortedCons(es[0], rest);
      }
    }
  }

  /** All keys with the prefix are gone from the column; every other key of every column is as before. */
  ghost predicate PrefixRemoved(s: Store, s': Store, c: Column, prefix: Key) {
    forall c', key ::
      Get(s', c', key) == if c' == c && prefix <= key then None else Get(s, c', key)
  }

  /** What deleting the first `readable` entries with the prefix leaves of one key. */
  lemma RemovalMeaning(s: Store, c: Column, prefix: Key, readable: nat, c': Column, key: Key)
    requires ValidStore(s)
    ensures var found := WithPrefix(Entries(s, c), prefix);
            var s' := ApplyOps(s, Deletions(c, Taken(found, readable)));
            && ValidStore(s')
            && (c' != c || !(prefix <= key) ==> Get(s', c', key) == Get(s, c', key))
            && (c' == c && prefix <= key && |found| <= readable ==> Get(s', c', key) == None)
  {
    var es := Entries(s, c);
    var found := WithPrefix(es, prefix);
    var taken := Taken(found, readable);
    DeletionsMeaning(s, c, taken, c', key);
    StartsWithIsPrefix(key, prefix);
    if HasKey(taken, key) {
      var k :| 0 <= k < |taken| && taken[k].key == key;
      WithPrefixMeaning(es, prefix, taken[k]);
      assert taken[k] == found[k];
    }
    if StartsWith(key, prefix) && |found| <= readable && Lookup(es, key).Some? {
      var e := Entry(key, Lookup(es, key).value);
      LookupEntry(es, key);
      WithPrefixMeaning(es, prefix, e);
      var k :| 0 <= k < |found| && found[k] == e;
      assert taken[k].key == key;
    }
  }

  /** The first entry that was not read stays. */
  lemma UnreadStays(s: Store, c: Column, prefix: Key, readable: nat)
    requires ValidStore(s)
    requires readable < |WithPrefix(Entries(s, c), prefix)|
    ensures var found := WithPrefix(Entries(s, c), prefix);
            var s' := ApplyOps(s, Deletions(c, Taken(found, readable)));
            prefix <= found[readable].key && Get(s', c, found[readable].key) == Some(found[readable].value)
  {
    var es := Entries(s, c);
    var found := WithPrefix(es, prefix);
    var e := found[readable];
    WithPrefixSorted(es, prefix);
    WithPrefixMeaning(es, prefix, e);
    StartsWithIsPrefix(e.key, prefix);
    LookupIn(es, e);
    DeletionsMeaning(s, c, Taken(found, readable), c, e.key);
    forall k | 0 <= k < readable ensures found[k].key != e.key {
      LessTotal(found[k].key, e.key);
    }
  }

  /** The prefix is removed exactly if the iterator does not fail before its last entry. */
  lemma RemovedIffRead(s: Store, c: Column, prefix: Key, readable: nat)
    requires ValidStore(s)
    ensures var found := WithPrefix(Entries(s, c), prefix);
            PrefixRemoved(s, ApplyOps(s, Deletions(c, Taken(found, readable))), c, prefix)
            <==> |found| <= readable
  {
    var found := WithPrefix(Entries(s, c), prefix);
    var s' := ApplyOps(s, Deletions(c, Taken(found, readable)));
    if |found| <= readable {
      forall c', key ensures Get(s', c', key) == if c' == c && prefix <= key then None else Get(s, c', key) {
        RemovalMeaning(s, c, prefix, readable, c', key);
      }
    } else {
      UnreadStays(s, c, prefix, readable);
    }
  }

  /** Goes through the entries from the prefix on until one does not have it, and notes their deletions. */
  method NoteDeletions(c: Column, iter: seq<Entry>, prefix: Key) returns (ops: seq<Op>)
    ensures ops == Deletions(c, WhilePrefixed(iter, prefix))
  {
    ops := [];
    var i := 0;
    while i < |iter| && StartsWith(iter[i].key, prefix)
      invariant 0 <= i <= |iter|
      invariant forall k | 0 <= k < i :: StartsWith(iter[k].key, prefix)
      invariant ops == Deletions(c, iter[..i])
    {
      ops := ops + [DeleteOp(c, iter[i].key)];
      i := i + 1;
    }
    FirstUnprefixed(iter, prefix, i);
  }

  lemma {:induction false} FirstUnprefixed(es: seq<Entry>, prefix: Key, i: nat)
    requires i <= |es| && forall k | 0 <= k < i :: StartsWith(es[k].key, prefix)
    requires i < |es| ==> !StartsWith(es[i].key, prefix)
    ensures WhilePrefixed(es, prefix) == es[..i]
  {
    if i > 0 {
      FirstUnprefixed(es[1..], prefix, i - 1);
      assert es[..i] == [es[0]] + es[1..][..i - 1];
    }
  }

  class Batch {
    var ops: seq<Op>

    constructor ()
      ensures ops == []
    {
      ops := [];
    }
  }

  class Db {
    var store: Store
    const mapping: DatabaseKeyMapping

    constructor (mapping: DatabaseKeyMapping)
      ensures this.mapping == mapping && store == map[] && ValidStore(store)
    {
      this.mapping := mapping;
      store := map[];
    }

    /** The entries with the prefix in its column, in key order. The iterator fails after `readable` entries. */
    method GetByPrefix(prefix: DatabaseKey, readable: nat) returns (r: seq<Entry>)
      requires ValidStore(store)
      ensures var found := WithPrefix(Entries(store, ColumnOf(mapping, prefix)), prefix.bytes);
              && r == Taken(found, readable)
              && (|found| <= readable ==>
                    forall e :: e in r <==> e in Entries(store, ColumnOf(mapping, prefix)) && prefix.bytes <= e.key)
    {
      var es := Entries(store, ColumnOf(mapping, prefix));
      ScanIsComplete(es, prefix.bytes);
      WhileTaken(Seek(es, prefix.bytes), prefix.bytes, readable);
      r := WhilePrefixed(Taken(Seek(es, prefix.bytes), readable), prefix.bytes);
      forall e ensures e in WithPrefix(es, prefix.bytes) <==> e in es && prefix.bytes <= e.key {
        WithPrefixMeaning(es, prefix.bytes, e);
        StartsWithIsPrefix(e.key, prefix.bytes);
      }
    }

    /** Without a batch the write happens at once; with one it is only noted there. */
    method Insert(key: DatabaseKey, value: Value, batch: Batch?) returns (before: Option<Value>)
      requires ValidStore(store)
      modifies this, batch
      ensures before == old(Get(store, ColumnOf(mapping, key), key.bytes))
      ensures ValidStore(store)
      ensures batch == null ==> store == ApplyOp(old(store), PutOp(ColumnOf(mapping, key), key.bytes, value))
      ensures batch != null ==>
                store == old(store) && batch.ops == old(batch.ops) + [PutOp(ColumnOf(mapping, key), key.bytes, value)]
    {
      var c := ColumnOf(mapping, key);
      before := Get(store, c, key.bytes);
      if batch != null {
        batch.ops := batch.ops + [PutOp(c, key.bytes, value)];
      } else {
        OpMeaning(store, PutOp(c, key.bytes, value), c, key.bytes);
        store := ApplyOp(store, PutOp(c, key.bytes, value));
      }
    }

    method Remove(key: DatabaseKey, batch: Batch?) returns (before: Option<Value>)
      requires ValidStore(store)
      modifies this, batch
      ensures before == old(Get(store, ColumnOf(mapping, key), key.bytes))
      ensures ValidStore(store)
      ensures batch == null ==> store == ApplyOp(old(store), DeleteOp(ColumnOf(mapping, key), key.bytes))
      ensures batch != null ==>
                store == old(store) && batch.ops == old(batch.ops) + [DeleteOp(ColumnOf(mapping, key), key.bytes)]
    {
      var c := ColumnOf(mapping, key);
      before := Get(store, c, key.bytes);
      if batch != null {
        batch.ops := batch.ops + [DeleteOp(c, key.bytes)];
      } else {
        OpMeaning(store, DeleteOp(c, key.bytes), c, key.bytes);
        store := ApplyOp(store, DeleteOp(c, key.bytes));
      }
    }

    method WriteBatch(batch: Batch)
      requires ValidStore(store)
      modifies this
      ensures ValidStore(store)
      ensures store == ApplyOps(old(store), batch.ops)
    {
      BatchMeaning(store, batch.ops, 0, []);
      store := ApplyOps(store, batch.ops);
    }

    /** The iterator fails after `readable` entries; what was noted before is still removed. */
    method RemoveByPrefix(prefix: DatabaseKey, readable: nat)
      requires ValidStore(store)
      modifies this
      ensures ValidStore(store)
      ensures var c := ColumnOf(mapping, prefix);
              var found := WithPrefix(Entries(old(store), c), prefix.bytes);
              && store == ApplyOps(old(store), Deletions(c, Taken(found, readable)))
              && (PrefixRemoved(old(store), store, c, prefix.bytes) <==> |found| <= readable)
    {
      var c := ColumnOf(mapping, prefix);
      var es := Entries(store, c);
      var batch := new Batch();
      batch.ops := NoteDeletions(c, Taken(Seek(es, prefix.bytes), readable), prefix.bytes);
      ScanIsComplete(es, prefix.bytes);
      WhileTaken(Seek(es, prefix.bytes), prefix.bytes, readable);
      RemovedIffRead(store, c, prefix.bytes, readable);
      WriteBatch(batch);
    }
  }
}
