/** CParameterSocks::Save and Load of the list of authentication methods, over a key-value store (QSettings). */
module MethodStore {
  import opened Bytes
  import opened Decimal

  type Store = map<string, nat>

  const PREFIX := "Socks/V5/Autenticator/Method/"
  const COUNT := PREFIX + "count"

  function Key(i: nat): string {
    PREFIX + Show(i)
  }

  /** The keys of a list are pairwise different, and none of them is the key of the length. */
  lemma KeysDiffer(i: nat, j: nat)
    ensures Key(i) != COUNT
    ensures Key(i) == Key(j) ==> i == j
  {
    assert Key(i)[|PREFIX|..] == Show(i) && Key(j)[|PREFIX|..] == Show(j);
    assert COUNT[|PREFIX|] == 'c';
    assert IsDigit(Key(i)[|PREFIX|]);
    if Key(i) == Key(j) {
      ShowInjective(i, j);
    }
  }

  /** value(key).toUInt(): 0 for a missing key. */
  function Get(s: Store, key: string): nat {
    if key in s then s[key] else 0
  }

  function PutItems(s: Store, ms: seq<byte>, n: nat): Store
    requires n <= |ms|
  {
    if n == 0 then s else PutItems(s, ms, n - 1)[Key(n - 1) := ms[n - 1]]
  }

  function Save(s: Store, ms: seq<byte>): Store {
    PutItems(s[COUNT := |ms|], ms, |ms|)
  }

  /** A stored number pushed into a vector of unsigned char. */
  function Items(s: Store, n: nat): seq<byte> {
    if n == 0 then [] else Items(s, n - 1) + [Get(s, Key(n - 1)) % 256]
  }

  /** An absent or zero length leaves the loader's own list. */
  function Load(s: Store, mine: seq<byte>): seq<byte> {
    if Get(s, COUNT) > 0 then Items(s, Get(s, COUNT)) else mine
  }

  lemma {:induction false} PutItemsAt(s: Store, ms: seq<byte>, n: nat, i: nat)
    requires n <= |ms|
    ensures i < n ==> Get(PutItems(s, ms, n), Key(i)) == ms[i]
    ensures Get(PutItems(s, ms, n), COUNT) == Get(s, COUNT)
  {
    if n == 0 {
    } else {
      KeysDiffer(n - 1, i);
      if i == n - 1 {
        PutItemsAt(s, ms, n - 1, 0);
      } else {
        PutItemsAt(s, ms, n - 1, i);
      }
    }
  }

  /** Save keeps every other key. */
  lemma {:induction false} PutItemsElsewhere(s: Store, ms: seq<byte>, n: nat, key: string)
    requires n <= |ms| && forall i: nat :: key != Key(i)
    ensures Get(PutItems(s, ms, n), key) == Get(s, key)
  {
    if n == 0 {
    } else {
      PutItemsElsewhere(s, ms, n - 1, key);
    }
  }

  /** What a Save leaves in the store: the length, each method under the key of its place, and every other key as it
      was. */
  lemma SavedUnderKeys(s: Store, ms: seq<byte>, i: nat, key: string)
    requires key != "Socks/V5/Autenticator/Method/count"
    requires forall n: nat :: key != "Socks/V5/Autenticator/Method/" + Show(n)
    ensures Get(Save(s, ms), "Socks/V5/Autenticator/Method/count") == |ms|
    ensures i < |ms| ==> Get(Save(s, ms), "Socks/V5/Autenticator/Method/" + Show(i)) == ms[i]
    ensures Get(Save(s, ms), key) == Get(s, key)
  {
    forall n: nat
      ensures key != Key(n)
    {
      assert Key(n) == "Socks/V5/Autenticator/Method/" + Show(n);
    }
    assert COUNT == "Socks/V5/Autenticator/Method/count";
    PutItemsAt(s[COUNT := |ms|], ms, |ms|, i);
    PutItemsElsewhere(s[COUNT := |ms|], ms, |ms|, key);
  }

  lemma {:induction false} ItemsAre(s: Store, ms: seq<byte>, n: nat)
    requires n <= |ms|
    requires forall i: nat :: i < n ==> Get(s, Key(i)) == ms[i]
    ensures Items(s, n) == ms[..n]
  {
    if n == 0 {
    } else {
      ItemsAre(s, ms, n - 1);
    }
  }

  /** Whatever the store held before, the saved list is what the next Load gives, unless it is empty: then the
      loader keeps its own list. */
  lemma LoadAfterSave(s: Store, ms: seq<byte>, mine: seq<byte>)
    ensures Load(Save(s, ms), mine) == if ms != [] then ms else mine
  {
    var s1 := Save(s, ms);
    PutItemsAt(s[COUNT := |ms|], ms, |ms|, 0);
    assert Get(s1, COUNT) == |ms|;
    forall i: nat | i < |ms|
      ensures Get(s1, Key(i)) == ms[i]
    {
      PutItemsAt(s[COUNT := |ms|], ms, |ms|, i);
    }
    ItemsAre(s1, ms, |ms|);
  }

  /** Other parts of the program write other keys of the same store between the saves. */
  datatype Write = SaveList(ms: seq<byte>) | SetOther(key: string, value: nat)

  predicate ListKey(key: string) {
    key == COUNT || (PREFIX <= key && forall i :: |PREFIX| <= i < |key| ==> IsDigit(key[i]))
  }

  predicate Legal(h: seq<Write>) {
    forall i :: 0 <= i < |h| && h[i].SetOther? ==> !ListKey(h[i].key)
  }

  function Apply(s: Store, h: seq<Write>): Store {
    if h == [] then s
    else
      var s1 := Apply(s, h[..|h| - 1]);
      match h[|h| - 1]
      case SaveList(ms) => Save(s1, ms)
      case SetOther(key, value) => s1[key := value]
  }

  /** The list saved last. */
  function Last(h: seq<Write>): Option<seq<byte>> {
    if h == [] then None
    else if h[|h| - 1].SaveList? then Some(h[|h| - 1].ms)
    else Last(h[..|h| - 1])
  }

  lemma {:induction false} ItemsUntouched(s: Store, key: string, value: nat, n: nat)
    requires !ListKey(key)
    ensures Items(s[key := value], n) == Items(s, n)
  {
    if n == 0 {
    } else {
      ItemsUntouched(s, key, value, n - 1);
      var k := Key(n - 1);
      assert forall i :: |PREFIX| <= i < |k| ==> k[i] == Show(n - 1)[i - |PREFIX|];
      assert ListKey(k);
    }
  }

  /** After any history of saves, of lists of any lengths, Load gives the list saved last if it is not empty and
      the loader's own list otherwise: the indexed keys of longer earlier lists never show. */
  lemma {:induction false} LoadGivesLastSaved(h: seq<Write>, mine: seq<byte>)
    requires Legal(h)
    ensures Load(Apply(map[], h), mine) ==
            if Last(h).Some? && Last(h).value != [] then Last(h).value else mine
  {
    if h == [] {
    } else {
      var before := h[..|h| - 1];
      var s1 := Apply(map[], before);
      match h[|h| - 1] {
        case SaveList(ms) => LoadAfterSave(s1, ms, mine);
        case SetOther(key, value) =>
          LoadGivesLastSaved(before, mine);
          ItemsUntouched(s1, key, value, Get(s1, COUNT));
      }
    }
  }

  /** The restored list is the saved one exactly when the latter is not empty or the loader's list was empty too. */
  lemma RestoredExact(h: seq<Write>, mine: seq<byte>)
    requires Legal(h) && Last(h).Some?
    ensures Load(Apply(map[], h), mine) == Last(h).value <==> Last(h).value != [] || mine == []
  {
    LoadGivesLastSaved(h, mine);
  }

  class QSettings {
    var store: Store

    constructor ()
      ensures store == map[]
    {
      store := map[];
    }

    method SetValue(key: string, value: nat)
      modifies this
      ensures store == old(store)[key := value]
    {
      store := store[key := value];
    }
  }

  class CParameterSocks {
    var methods: seq<byte>          // m_V5AuthenticatorMethod

    constructor (methods: seq<byte>)
      ensures this.methods == methods
    {
      this.methods := methods;
    }

    method SaveTo(settings: QSettings)
      modifies settings
      ensures settings.store == Save(old(settings.store), methods)
      ensures methods == old(methods)
    {
      settings.SetValue(COUNT, |methods|);
      ghost var s0 := settings.store;
      for i := 0 to |methods|
        invariant settings.store == PutItems(s0, methods, i)
      {
        settings.SetValue(Key(i), methods[i]);
      }
    }

    method LoadFrom(settings: QSettings)
      modifies this
      ensures methods == Load(settings.store, old(methods))
      ensures settings.store == old(settings.store)
    {
      var count := Get(settings.store, COUNT);
      if count > 0 {
        methods := [];
      }
      for i := 0 to count
        invariant count > 0 ==> methods == Items(settings.store, i)
        invariant count == 0 ==> methods == old(methods)
        invariant settings.store == old(settings.store)
      {
        methods := methods + [Get(settings.store, Key(i)) % 256];
      }
    }
  }
}
