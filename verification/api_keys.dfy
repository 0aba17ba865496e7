/** The demo API-key list kept in browser storage: the default key written
    on first load, showing and hiding keys, creating test keys, revoking
    keys and masking a hidden key. Random key characters and the clock are
    inputs. */
module ApiKeys {
  import opened Wrappers
  import opened Seqs
  import opened Numbers

  datatype KeyKind = Production | Test

  /** A stored key. Times are milliseconds since the epoch. */
  datatype ApiKey = ApiKey(
    id: string,
    name: string,
    key: string,
    prefix: string,
    created: int,
    lastUsed: Option<int>,
    kind: KeyKind)

  /** The `apiKeys` storage entry as `loadKeys` finds it: missing or empty,
      a readable key list, or something `JSON.parse` rejects. */
  datatype KeyStore = Absent | Stored(keys: seq<ApiKey>) | Unreadable

  /** The list after loading, and what was written back (if anything). */
  datatype Loaded = Loaded(keys: seq<ApiKey>, written: Option<seq<ApiKey>>)

  const DefaultKeyId: string := "1"
  const DefaultKeyName: string := "Production Key"
  const LivePrefix: string := "sk_live"
  const TestPrefix: string := "sk_test"
  const TestKeyName: string := "Test Key "
  const MaskLength: nat := 32

  /** The demo key: `now` is the creation time and `suffix` the random characters. */
  function DefaultKey(now: int, suffix: string): (k: ApiKey)
    ensures k.kind == Production && k.prefix == LivePrefix && k.id == DefaultKeyId
    ensures k.key == LivePrefix + "_" + suffix
  {
    ApiKey(DefaultKeyId, DefaultKeyName, LivePrefix + "_" + suffix, LivePrefix, now, None, Production)
  }

  /** `loadKeys`: a stored list is used as it is; with nothing stored the
      single demo key is shown and written back; an unreadable entry leaves
      the list empty and writes nothing. */
  function LoadKeys(store: KeyStore, now: int, suffix: string): (r: Loaded)
    ensures store.Stored? ==> r == Loaded(store.keys, None)
    ensures store.Absent? ==>
              && |r.keys| == 1
              && r.keys[0].kind == Production
              && r.keys[0].prefix == LivePrefix
              && r.keys[0].id == DefaultKeyId
              && r.keys[0].name == DefaultKeyName
              && r.keys[0].created == now
              && r.keys[0].key == LivePrefix + "_" + suffix
              && r.keys[0].lastUsed.None?
              && r.written == Some(r.keys)
    ensures store.Unreadable? ==> r == Loaded([], None)
  {
    match store
    case Absent => Loaded([DefaultKey(now, suffix)], Some([DefaultKey(now, suffix)]))
    case Stored(keys) => Loaded(keys, None)
    case Unreadable => Loaded([], None)
  }

  /** What the first load writes back is what any later load reads: the
      same single demo key, and nothing more written. */
  lemma LoadWriteBack(now: int, suffix: string, later: int, laterSuffix: string)
    ensures var first := LoadKeys(Absent, now, suffix);
            && first.written.Some?
            && LoadKeys(Stored(first.written.value), later, laterSuffix) == Loaded(first.keys, None)
  {
  }

  /** `toggleKeyVisibility`: shows a hidden key or hides a shown one. */
  function ToggleVisibility(visible: set<string>, id: string): (r: set<string>)
    ensures id in r <==> id !in visible
    ensures forall x :: x != id ==> (x in r <==> x in visible)
  {
    if id in visible then visible - {id} else visible + {id}
  }

  /** Toggling the same key twice restores the visible set. */
  lemma ToggleTwice(visible: set<string>, id: string)
    ensures ToggleVisibility(ToggleVisibility(visible, id), id) == visible
  {
    var once := ToggleVisibility(visible, id);
    var twice := ToggleVisibility(once, id);
    assert forall x :: x in twice <==> x in visible;
  }

  function IsTest(): ApiKey -> bool {
    (k: ApiKey) => k.kind == Test
  }

  lemma TestPositions(keys: seq<ApiKey>)
    ensures |Filter(IsTest(), keys)| == |set i | 0 <= i < |keys| && keys[i].kind == Test|
  {
    FilterSize(IsTest(), keys);
    assert Positions(IsTest(), keys) == set i | 0 <= i < |keys| && keys[i].kind == Test;
  }

  /** How many test keys the list holds. */
  function TestKeyCount(keys: seq<ApiKey>): (r: nat)
    ensures r == |set i | 0 <= i < |keys| && keys[i].kind == Test|
    ensures r <= |keys|
  {
    TestPositions(keys);
    |Filter(IsTest(), keys)|
  }

  /** `createNewKey`: appends one test key named after the number of test
      keys so far, plus one. `now` is both the id and the creation time. */
  function CreateKey(keys: seq<ApiKey>, now: int, suffix: string): (r: seq<ApiKey>)
    ensures |r| == |keys| + 1
    ensures r[..|keys|] == keys
    ensures var k := r[|keys|];
            && k.kind == Test
            && k.prefix == TestPrefix
            && k.key == TestPrefix + "_" + suffix
            && k.id == IntToString(now)
            && k.name == TestKeyName + IntToString(TestKeyCount(keys) + 1)
            && k.created == now
            && k.lastUsed.None?
  {
    var k := ApiKey(IntToString(now), TestKeyName + IntToString(TestKeyCount(keys) + 1),
                    TestPrefix + "_" + suffix, TestPrefix, now, None, Test);
    assert (keys + [k])[..|keys|] == keys;
    keys + [k]
  }

  /** Each creation adds one test key, so the next name counts one further. */
  lemma CreateCountsUp(keys: seq<ApiKey>, now: int, suffix: string)
    ensures TestKeyCount(CreateKey(keys, now, suffix)) == TestKeyCount(keys) + 1
  {
    var r := CreateKey(keys, now, suffix);
    assert r == r[..|keys|] + [r[|keys|]];
    FilterAppend(IsTest(), keys, [r[|keys|]]);
  }

  function IdIsNot(id: string): ApiKey -> bool {
    (k: ApiKey) => k.id != id
  }

  /** `revokeKey`: once confirmed, drops every key with that id and keeps the
      others in order; unconfirmed, changes nothing. */
  function RevokeKey(keys: seq<ApiKey>, id: string, confirmed: bool): (r: seq<ApiKey>)
    ensures !confirmed ==> r == keys
    ensures confirmed ==>
              && IsSubsequence(r, keys)
              && (forall k :: k in r <==> k in keys && k.id != id)
              && (forall k: ApiKey :: k.id != id ==> multiset(r)[k] == multiset(keys)[k])
  {
    if confirmed then
      FilterSpec(IdIsNot(id), keys);
      Filter(IdIsNot(id), keys)
    else
      keys
  }

  /** Revoking the same key again changes nothing. */
  lemma RevokeTwice(keys: seq<ApiKey>, id: string)
    ensures RevokeKey(RevokeKey(keys, id, true), id, true) == RevokeKey(keys, id, true)
  {
    FilterIdempotent(IdIsNot(id), keys);
  }

  // ---------------------------------------------------------------------------
  // Masking

  /** `s.indexOf(c)`: the first position of `c`, or -1. */
  function IndexOf(s: string, c: char): (r: int)
    ensures -1 <= r < |s|
    ensures r == -1 <==> c !in s
    ensures r >= 0 ==> s[r] == c && c !in s[..r]
  {
    if |s| == 0 then -1
    else if s[0] == c then 0
    else
      var i := IndexOf(s[1..], c);
      assert s[1..] == s[1..][..] && s[0] != c;
      if i == -1 then -1
      else
        assert s[..i + 1] == [s[0]] + s[1..][..i];
        i + 1
  }

  function Repeat(s: string, n: nat): (r: string)
    ensures |r| == n * |s|
  {
    if n == 0 then "" else s + Repeat(s, n - 1)
  }

  lemma {:induction false} RepeatChar(c: char, n: nat)
    ensures forall i :: 0 <= i < |Repeat([c], n)| ==> Repeat([c], n)[i] == c
  {
    if n > 0 {
      RepeatChar(c, n - 1);
    }
  }

  /** The bullet the masked key is drawn with. */
  const Bullet: char := '\U{2022}'

  /** `maskKey` as the page evidently means it: everything up to and
      including the first "_", then 32 bullets; with no "_", just the 32
      bullets. Nothing after the first "_" is shown. */
  function MaskKey(key: string): (r: string)
    ensures var cut := IndexOf(key, '_') + 1;
            && |r| == cut + MaskLength
            && r[..cut] == key[..cut]
            && (forall i :: cut <= i < |r| ==> r[i] == Bullet)
    ensures '_' !in key ==> r == Repeat([Bullet], MaskLength)
  {
    var cut := IndexOf(key, '_') + 1;
    RepeatChar(Bullet, MaskLength);
    key[..cut] + Repeat([Bullet], MaskLength)
  }

  /** The mask reveals nothing after the first "_": two keys that agree up to
      their first "_" mask alike. */
  lemma MaskHidesSecret(a: string, b: string, i: nat)
    requires i < |a| && i < |b| && a[i] == '_' && b[i] == '_'
    requires '_' !in a[..i] && a[..i] == b[..i]
    ensures MaskKey(a) == MaskKey(b)
  {
    FirstIndex(a, '_', i);
    FirstIndex(b, '_', i);
    assert a[..i + 1] == a[..i] + [a[i]];
    assert b[..i + 1] == b[..i] + [b[i]];
  }

  /** A position holding `c` with no `c` before it is what `IndexOf` finds. */
  lemma {:induction false} FirstIndex(s: string, c: char, i: nat)
    requires i < |s| && s[i] == c && c !in s[..i]
    ensures IndexOf(s, c) == i
  {
    if i > 0 {
      assert s[0] == s[..i][0];
      assert s[1..][..i - 1] == s[..i][1..];
      FirstIndex(s[1..], c, i - 1);
    }
  }

  /** The glyph as the page's source text spells it: the three characters
      "â€¢" that the UTF-8 bytes of "•" become when read as Windows-1252. */
  const MisencodedBullet: string := ['\U{00E2}', '\U{20AC}', '\U{00A2}']

  /** `maskKey` as written: the prefix, then the three-character glyph 32 times. */
  function MaskKeyAsWritten(key: string): (r: string)
    ensures var cut := IndexOf(key, '_') + 1;
            && |r| == cut + 3 * MaskLength
            && r[..cut] == key[..cut]
            && (forall i :: 0 <= i < 3 * MaskLength ==> r[cut + i] == MisencodedBullet[i % 3])
  {
    var cut := IndexOf(key, '_') + 1;
    RepeatGlyph(MaskLength);
    key[..cut] + Repeat(MisencodedBullet, MaskLength)
  }

  /** The repeated glyph cycles through its three characters. */
  lemma {:induction false} RepeatGlyph(n: nat)
    ensures forall i :: 0 <= i < 3 * n ==> Repeat(MisencodedBullet, n)[i] == MisencodedBullet[i % 3]
  {
    if n > 0 {
      RepeatGlyph(n - 1);
      var r := Repeat(MisencodedBullet, n);
      forall i | 0 <= i < 3 * n ensures r[i] == MisencodedBullet[i % 3] {
        if i >= 3 {
          assert r[i] == Repeat(MisencodedBullet, n - 1)[i - 3];
        }
      }
    }
  }

  /** As written, the mask is three times longer than intended and shows no
      bullet: "sk_live_x" masks to "sk_" followed by 96 characters. */
  lemma MaskAsWrittenDiffers(key: string)
    ensures |MaskKeyAsWritten(key)| == |MaskKey(key)| + 2 * MaskLength
    ensures MaskKeyAsWritten(key) != MaskKey(key)
    ensures Bullet !in MaskKeyAsWritten(key)[IndexOf(key, '_') + 1..]
  {
    var cut := IndexOf(key, '_') + 1;
    RepeatNoBullet(MaskLength);
    assert MaskKeyAsWritten(key)[cut..] == Repeat(MisencodedBullet, MaskLength);
  }

  lemma {:induction false} RepeatNoBullet(n: nat)
    ensures Bullet !in Repeat(MisencodedBullet, n)
  {
    if n > 0 {
      RepeatNoBullet(n - 1);
    }
  }

  /** What a key row shows as written: the key itself when visible, the
      misencoded mask otherwise. */
  function DisplayedKeyAsWritten(k: ApiKey, visible: set<string>): (r: string)
    ensures k.id in visible ==> r == k.key
    ensures k.id !in visible ==> r == MaskKeyAsWritten(k.key) && Bullet !in r[IndexOf(k.key, '_') + 1..]
  {
    if k.id in visible then k.key
    else
      MaskAsWrittenDiffers(k.key);
      MaskKeyAsWritten(k.key)
  }

  /** What a key row shows: the key itself when visible, its mask otherwise. */
  function DisplayedKey(k: ApiKey, visible: set<string>): (r: string)
    ensures k.id in visible ==> r == k.key
    ensures k.id !in visible ==> r == MaskKey(k.key)
  {
    if k.id in visible then k.key else MaskKey(k.key)
  }
}
