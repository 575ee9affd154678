/**
 * PHP values and PHP arrays (ordered maps from int or string keys), as far
 * as the core inspects them: payload documents, header maps, rows. An array
 * is a sequence of entries in insertion order; lookup finds the first entry
 * with the key, assignment replaces it in place or appends, and unset drops
 * it. Floats and objects are not part of this model.
 */
module PhpValues {
  import opened Common
  import opened PhpStrings

  datatype Key = IntKey(i: int) | StrKey(s: string)

  datatype Value =
    | Null
    | Bool(b: bool)
    | Int(i: int)
    | Str(s: string)
    | Arr(entries: seq<Entry>)

  datatype Entry = Entry(key: Key, val: Value)

  type PhpArray = seq<Entry>

  /** No key occurs twice (every array PHP builds has this shape). */
  predicate UniqueKeys(a: PhpArray) {
    forall i, j | 0 <= i < j < |a| :: a[i].key != a[j].key
  }

  predicate HasKey(a: PhpArray, k: Key) {
    exists i | 0 <= i < |a| :: a[i].key == k
  }

  /** array_key_exists($k, $a) ? $a[$k] : absent */
  function Get(a: PhpArray, k: Key): (r: Option<Value>)
    ensures r.None? <==> !HasKey(a, k)
    ensures r.Some? ==> exists i | 0 <= i < |a| :: a[i] == Entry(k, r.value)
  {
    if a == [] then None
    else if a[0].key == k then Some(a[0].val)
    else
      var r := Get(a[1..], k);
      assert forall i | 0 <= i < |a| - 1 :: a[1..][i] == a[i + 1];
      r
  }

  /** Lookup finds the first entry with the key. */
  lemma {:induction false} GetFirstMatch(a: PhpArray, i: int)
    requires 0 <= i < |a|
    requires forall j | 0 <= j < i :: a[j].key != a[i].key
    ensures Get(a, a[i].key) == Some(a[i].val)
  {
    if i > 0 {
      assert a[1..][i - 1] == a[i];
      GetFirstMatch(a[1..], i - 1);
    }
  }

  /** In a concatenation the first array's entry wins; the second is consulted only without one. */
  lemma {:induction false} GetAppend(a: PhpArray, b: PhpArray, k: Key)
    ensures Get(a + b, k) == if HasKey(a, k) then Get(a, k) else Get(b, k)
  {
    if a == [] {
      assert a + b == b;
    } else if a[0].key != k {
      assert (a + b)[1..] == a[1..] + b;
      GetAppend(a[1..], b, k);
      assert HasKey(a, k) ==> HasKey(a[1..], k) by {
        if HasKey(a, k) {
          var i :| 0 <= i < |a| && a[i].key == k;
          assert a[1..][i - 1].key == k;
        }
      }
    }
  }

  /** $a[$k] ?? null: absent and null are the same to '??'. */
  function Lookup(a: PhpArray, k: Key): Value {
    match Get(a, k)
    case Some(v) => v
    case None => Null
  }

  /** $a['name'] ?? null, the common case of a string key. */
  function Field(a: PhpArray, name: string): Value {
    Lookup(a, StrKey(name))
  }

  /** $a[$k] = $v */
  function Set(a: PhpArray, k: Key, v: Value): (r: PhpArray)
    ensures |r| == if HasKey(a, k) then |a| else |a| + 1
  {
    if a == [] then [Entry(k, v)]
    else if a[0].key == k then [Entry(k, v)] + a[1..]
    else
      assert HasKey(a, k) <==> HasKey(a[1..], k) by {
        if HasKey(a, k) {
          var i :| 0 <= i < |a| && a[i].key == k;
          assert a[1..][i - 1].key == k;
        }
        if HasKey(a[1..], k) {
          var i :| 0 <= i < |a| - 1 && a[1..][i].key == k;
          assert a[i + 1].key == k;
        }
      }
      [a[0]] + Set(a[1..], k, v)
  }

  /** unset($a[$k]) */
  function Unset(a: PhpArray, k: Key): (r: PhpArray)
    ensures |r| <= |a|
  {
    if a == [] then []
    else if a[0].key == k then Unset(a[1..], k)
    else [a[0]] + Unset(a[1..], k)
  }

  lemma {:induction false} GetSetSame(a: PhpArray, k: Key, v: Value)
    ensures Get(Set(a, k, v), k) == Some(v)
  {
    if a != [] && a[0].key != k {
      GetSetSame(a[1..], k, v);
    }
  }

  lemma {:induction false} GetSetOther(a: PhpArray, k: Key, v: Value, k': Key)
    requires k' != k
    ensures Get(Set(a, k, v), k') == Get(a, k')
  {
    if a != [] && a[0].key != k && a[0].key != k' {
      GetSetOther(a[1..], k, v, k');
    }
  }

  lemma {:induction false} GetUnsetSame(a: PhpArray, k: Key)
    ensures Get(Unset(a, k), k) == None
  {
    if a != [] {
      GetUnsetSame(a[1..], k);
    }
  }

  lemma {:induction false} GetUnsetOther(a: PhpArray, k: Key, k': Key)
    requires k' != k
    ensures Get(Unset(a, k), k') == Get(a, k')
  {
    if a != [] && a[0].key != k' {
      GetUnsetOther(a[1..], k, k');
    }
  }

  /** Assigning a key the value it already has changes nothing. */
  lemma {:induction false} SetToCurrentValue(a: PhpArray, k: Key)
    requires HasKey(a, k)
    ensures Set(a, k, Get(a, k).value) == a
  {
    if a[0].key != k {
      var i :| 0 <= i < |a| && a[i].key == k;
      assert a[1..][i - 1].key == k;
      SetToCurrentValue(a[1..], k);
      assert a == [a[0]] + a[1..];
    }
  }

  /** Keys in order. */
  function Keys(a: PhpArray): (r: seq<Key>)
    ensures |r| == |a| && forall i | 0 <= i < |a| :: r[i] == a[i].key
  {
    seq(|a|, i requires 0 <= i < |a| => a[i].key)
  }

  /** Assignment keeps every other entry, in order, and puts $k last if it was new. */
  lemma {:induction false} SetAppendsNewKey(a: PhpArray, k: Key, v: Value)
    requires !HasKey(a, k)
    ensures Set(a, k, v) == a + [Entry(k, v)]
  {
    if a != [] {
      forall i | 0 <= i < |a| - 1 ensures a[1..][i].key != k {
        assert a[1..][i] == a[i + 1];
      }
      SetAppendsNewKey(a[1..], k, v);
      assert a == [a[0]] + a[1..];
    }
  }

  lemma {:induction false} UnsetKeepsUnique(a: PhpArray, k: Key)
    requires UniqueKeys(a)
    ensures UniqueKeys(Unset(a, k))
    ensures forall i | 0 <= i < |Unset(a, k)| :: HasKey(a, Unset(a, k)[i].key)
  {
    if a != [] {
      var t := a[1..];
      assert UniqueKeys(t);
      UnsetKeepsUnique(t, k);
      var u := Unset(t, k);
      forall i | 0 <= i < |u| ensures HasKey(a, u[i].key) {
        var j :| 0 <= j < |t| && t[j].key == u[i].key;
        assert a[j + 1].key == u[i].key;
      }
      if a[0].key != k {
        forall i | 0 <= i < |u| ensures u[i].key != a[0].key {
          var j :| 0 <= j < |t| && t[j].key == u[i].key;
          assert a[j + 1] == t[j];
        }
        var r := [a[0]] + u;
        forall i, j | 0 <= i < j < |r| ensures r[i].key != r[j].key {
          if i == 0 {
            assert r[j] == u[j - 1];
          } else {
            assert r[i] == u[i - 1] && r[j] == u[j - 1];
          }
        }
      }
    }
  }

  const TrueText := "1"
  const ArrayText := "Array"

  /** (string)$v for the values modelled here. */
  function ToPhpString(v: Value): string {
    match v
    case Null => ""
    case Bool(b) => if b then TrueText else ""
    case Int(i) => IntToString(i)
    case Str(s) => s
    case Arr(_) => ArrayText
  }

  /** (string)$k for an array key. */
  function KeyToString(k: Key): string {
    match k
    case IntKey(i) => IntToString(i)
    case StrKey(s) => s
  }

  /** (bool)$v for the values modelled here. */
  function ToPhpBool(v: Value): bool {
    match v
    case Null => false
    case Bool(b) => b
    case Int(i) => i != 0
    case Str(s) => s != "" && s != "0"
    case Arr(es) => es != []
  }

  /** (int)$v for the values modelled here. */
  function ToPhpInt(v: Value): int {
    match v
    case Null => 0
    case Bool(b) => if b then 1 else 0
    case Int(i) => i
    case Str(s) => IntCast(s)
    case Arr(es) => if es == [] then 0 else 1
  }
}
