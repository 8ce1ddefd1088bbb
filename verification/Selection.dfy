/**
 Which stores one `snug engine gc` goes after: the directory names under engines/, and the
 union of the three selectors.
 */
module Selection {
  import opened Options
  import opened Strings

  // ---- the names under engines/ -------------------------------------------------------

  predicate IsHex(c: char) { '0' <= c <= '9' || 'a' <= c <= 'f' }

  predicate AllHex(s: string) { forall i :: 0 <= i < |s| ==> IsHex(s[i]) }

  const LABEL := "sha256_"

  // A store key of this or of the two earlier generations.
  predicate ReclaimableStoreKey(s: string) {
    (LABEL <= s && |s| == |LABEL| + 64 && AllHex(s[|LABEL|..])) || ((|s| == 64 || |s| == 16) && AllHex(s))
  }

  const LEFTOVER := ".gc-"

  function LeftoverName(key: string, pid: nat, stamp: nat): string {
    LEFTOVER + (key + ['-'] + (Decimal(pid) + ("-" + Decimal(stamp))))
  }

  datatype Entry = Store(key: string) | Leftover(key: string) | Stranger

  function Classify(name: string): Entry {
    if ReclaimableStoreKey(name) then Store(name)
    else if LEFTOVER <= name then
      var rest := name[|LEFTOVER|..];
      var key := rest[..Cut(rest, '-')];
      if ReclaimableStoreKey(key) then Leftover(key) else Stranger
    else Stranger
  }

  lemma KeyHasNoDash(key: string)
    requires ReclaimableStoreKey(key)
    ensures '-' !in key
  {
    if LABEL <= key {
      assert key == LABEL + key[|LABEL|..];
    }
  }

  /** The three generations of names: a labelled digest, a bare one, and one cut to sixteen
      digits; hexadecimal digits in any other number are no store. */
  lemma KeyShapes(digits: string)
    requires forall i :: 0 <= i < |digits| ==> '0' <= digits[i] <= '9' || 'a' <= digits[i] <= 'f'
    ensures Classify("sha256_" + digits) == if |digits| == 64 then Store("sha256_" + digits) else Stranger
    ensures Classify(digits) == if |digits| == 64 || |digits| == 16 then Store(digits) else Stranger
  {
    var labelled := "sha256_" + digits;
    assert labelled[7..] == digits && labelled[0] == 's' && !IsHex('s');
    assert digits != "" ==> digits[0] != '.' && digits[0] != 's';
  }

  /** A store renamed aside is never listed as a store again, whatever the process and the
      clock put into the name, and its key is read back from the name. */
  lemma LeftoverIsRecognised(key: string, pid: nat, stamp: nat)
    requires ReclaimableStoreKey(key)
    ensures Classify(LeftoverName(key, pid, stamp)) == Leftover(key)
  {
    var name := LeftoverName(key, pid, stamp);
    var rest := key + ['-'] + (Decimal(pid) + ("-" + Decimal(stamp)));
    assert name[0] == '.' && name[|LEFTOVER|..] == rest;
    KeyHasNoDash(key);
    CutAt(key, '-', Decimal(pid) + ("-" + Decimal(stamp)));
    assert rest[..|key|] == key;
  }

  // ---- the selectors --------------------------------------------------------------------

  // lastUsed is None when the breadcrumb's timestamp does not parse.
  datatype Candidate = Candidate(key: string, attributed: bool, lastUsed: Option<int>)

  datatype Selectors = Selectors(keys: seq<string>, unattributed: bool, olderThan: Option<int>)

  // A directory listing names no store twice.
  ghost predicate Distinct(cs: seq<Candidate>) {
    forall i, j :: 0 <= i < j < |cs| ==> cs[i].key != cs[j].key
  }

  predicate Old(o: Selectors, now: int, c: Candidate) {
    o.olderThan.Some? && c.attributed && c.lastUsed.Some? && now - c.lastUsed.value >= o.olderThan.value
  }

  // The union: a named key selects itself whatever is known about it.
  predicate Picks(o: Selectors, now: int, c: Candidate) {
    c.key in o.keys || (o.unattributed && !c.attributed) || Old(o, now, c)
  }

  const USAGE := 64
  const INTERNAL := 70

  // Strictly ascending.
  predicate Ascending(keys: seq<string>) {
    |keys| <= 1 || (Less(keys[0], keys[1]) && Ascending(keys[1..]))
  }

  lemma {:induction false} FirstIsLeast(keys: seq<string>, j: nat)
    requires Ascending(keys) && 0 < j < |keys|
    ensures Less(keys[0], keys[j])
  {
    if j > 1 {
      FirstIsLeast(keys[1..], j - 1);
      LessIsTransitive(keys[0], keys[1], keys[j]);
    }
  }

  lemma {:induction false} AscendingIsOnce(keys: seq<string>, i: nat, j: nat)
    requires Ascending(keys) && i < j < |keys|
    ensures Less(keys[i], keys[j]) && keys[i] != keys[j]
  {
    if i == 0 {
      FirstIsLeast(keys, j);
      LessIsStrict(keys[0], keys[j]);
    } else {
      AscendingIsOnce(keys[1..], i - 1, j - 1);
    }
  }

  function Inserted(keys: seq<string>, k: string): (r: seq<string>)
    ensures |r| > 0 && (r[0] == k || (keys != [] && r[0] == keys[0]))
    ensures forall x :: x in r <==> x == k || x in keys
  {
    if keys == [] || Less(k, keys[0]) then
      [k] + keys
    else
      assert keys == [keys[0]] + keys[1..];
      [keys[0]] + Inserted(keys[1..], k)
  }

  lemma {:induction false} InsertedAscends(keys: seq<string>, k: string)
    requires Ascending(keys) && k !in keys
    ensures Ascending(Inserted(keys, k))
  {
    if keys != [] && !Less(k, keys[0]) {
      InsertedAscends(keys[1..], k);
      LessIsTotal(k, keys[0]);
      assert Inserted(keys, k)[1..] == Inserted(keys[1..], k);
    } else if keys != [] {
      assert Inserted(keys, k)[1..] == keys;
    }
  }

  // The map's keys, taken in any order, then sorted.
  method SortedKeys(selected: set<string>) returns (keys: seq<string>)
    ensures Ascending(keys) && forall k :: k in keys <==> k in selected
  {
    keys := [];
    var todo := selected;
    while todo != {}
      invariant todo <= selected && Ascending(keys)
      invariant forall k :: k in keys <==> k in selected && k !in todo
      decreases |todo|
    {
      var k :| k in todo;
      InsertedAscends(keys, k);
      keys := Inserted(keys, k);
      todo := todo - {k};
    }
  }

  method ByKey(cs: seq<Candidate>) returns (byKey: map<string, Candidate>)
    requires Distinct(cs)
    ensures forall k :: k in byKey ==> byKey[k] in cs && byKey[k].key == k
    ensures forall c :: c in cs ==> c.key in byKey && byKey[c.key] == c
  {
    byKey := map[];
    var i := 0;
    while i < |cs|
      invariant i <= |cs| && forall k :: k in byKey ==> byKey[k] in cs[..i] && byKey[k].key == k
      invariant forall j :: 0 <= j < i ==> cs[j].key in byKey && byKey[cs[j].key] == cs[j]
    {
      byKey := byKey[cs[i].key := cs[i]];
      i := i + 1;
    }
  }

  // The named keys that are there; one that is not costs the exit code and nothing else.
  method NamedKeys(known: set<string>, keys: seq<string>) returns (selected: set<string>, code: nat)
    ensures forall k :: k in selected <==> k in known && k in keys
    ensures code == if forall k :: k in keys ==> k in known then 0 else USAGE
  {
    selected, code := {}, 0;
    var i := 0;
    while i < |keys|
      invariant i <= |keys| && forall k :: k in selected <==> k in known && k in keys[..i]
      invariant code == if forall k :: k in keys[..i] ==> k in known then 0 else USAGE
    {
      assert keys[..i + 1] == keys[..i] + [keys[i]];
      if keys[i] !in known {
        code := USAGE;
      } else {
        selected := selected + {keys[i]};
      }
      i := i + 1;
    }
    assert keys[..i] == keys;
  }

  // The two loops over the candidates.
  method AddMatching(cs: seq<Candidate>, o: Selectors, now: int, named: set<string>) returns (selected: set<string>)
    ensures forall k :: k in selected <==>
              k in named || exists c :: c in cs && c.key == k && ((o.unattributed && !c.attributed) || Old(o, now, c))
  {
    selected := named;
    var i := 0;
    while i < |cs|
      invariant i <= |cs|
      invariant forall k :: k in selected <==>
        k in named || exists c :: c in cs[..i] && c.key == k && ((o.unattributed && !c.attributed) || Old(o, now, c))
    {
      assert cs[..i + 1] == cs[..i] + [cs[i]];
      if (o.unattributed && !cs[i].attributed) || Old(o, now, cs[i]) {
        selected := selected + {cs[i].key};
      }
      i := i + 1;
    }
    assert cs[..i] == cs;
  }

  predicate SomeFails(done: seq<Candidate>, fails: Candidate -> bool) {
    exists i :: 0 <= i < |done| && fails(done[i])
  }

  method ProcessAll(byKey: map<string, Candidate>, keys: seq<string>, fails: Candidate -> bool, start: nat)
    returns (done: seq<Candidate>, code: nat)
    requires forall k :: k in keys ==> k in byKey
    ensures |done| == |keys| && forall i :: 0 <= i < |keys| ==> done[i] == byKey[keys[i]]
    ensures code == if SomeFails(done, fails) then INTERNAL else start
  {
    done, code := [], start;
    var i := 0;
    while i < |keys|
      invariant i <= |keys| && |done| == i && forall j :: 0 <= j < i ==> done[j] == byKey[keys[j]]
      invariant code == if SomeFails(done, fails) then INTERNAL else start
    {
      ghost var before := done;
      var c := byKey[keys[i]];
      if fails(c) {
        code := INTERNAL;
      }
      done := done + [c];
      assert SomeFails(before, fails) ==> SomeFails(done, fails) by {
        assert forall j :: 0 <= j < |before| ==> done[j] == before[j];
      }
      assert fails(c) ==> fails(done[i]);
      i := i + 1;
    }
  }

  lemma DoneIsPicked(cs: seq<Candidate>, o: Selectors, now: int, byKey: map<string, Candidate>,
                     selected: set<string>, keys: seq<string>, done: seq<Candidate>)
    requires forall k :: k in byKey ==> byKey[k] in cs && byKey[k].key == k
    requires forall c :: c in cs ==> c.key in byKey && byKey[c.key] == c
    requires forall k :: k in selected <==> k in byKey && Picks(o, now, byKey[k])
    requires forall k :: k in keys <==> k in selected
    requires |done| == |keys| && forall i :: 0 <= i < |keys| ==> keys[i] in byKey && done[i] == byKey[keys[i]]
    ensures forall c :: c in done <==> c in cs && Picks(o, now, c)
  {
    forall c | c in done ensures c in cs && Picks(o, now, c) {
      var i :| 0 <= i < |done| && done[i] == c;
      assert keys[i] in keys;
    }
    forall c | c in cs && Picks(o, now, c) ensures c in done {
      var i :| 0 <= i < |keys| && keys[i] == c.key;
      assert done[i] == c;
    }
  }

  lemma SelectedIsPicked(cs: seq<Candidate>, o: Selectors, now: int, byKey: map<string, Candidate>,
                         named: set<string>, selected: set<string>)
    requires forall k :: k in byKey ==> byKey[k] in cs && byKey[k].key == k
    requires forall c :: c in cs ==> c.key in byKey && byKey[c.key] == c
    requires forall k :: k in named <==> k in byKey.Keys && k in o.keys
    requires forall k :: k in selected <==>
               k in named || exists c :: c in cs && c.key == k && ((o.unattributed && !c.attributed) || Old(o, now, c))
    ensures forall k :: k in selected <==> k in byKey && Picks(o, now, byKey[k])
  {
  }

  /** The stores processed are exactly those some selector picks, each once, in key order;
      --older-than never picks a store without a trustworthy breadcrumb.  A store that
      fails outranks a named key that is not there in the exit code. */
  method EngineGCSelect(cs: seq<Candidate>, o: Selectors, now: int, fails: Candidate -> bool)
    returns (done: seq<Candidate>, code: nat)
    requires Distinct(cs)
    ensures forall c :: c in done <==>
              && c in cs
              && (|| c.key in o.keys
                  || (o.unattributed && !c.attributed)
                  || (o.olderThan.Some? && c.attributed && c.lastUsed.Some? && now - c.lastUsed.value >= o.olderThan.value))
    ensures forall i, j :: 0 <= i < j < |done| ==> Less(done[i].key, done[j].key) && done[i].key != done[j].key
    ensures code == if exists i :: 0 <= i < |done| && fails(done[i]) then 70
                    else if forall k :: k in o.keys ==> exists c :: c in cs && c.key == k then 0
                    else 64
  {
    var byKey := ByKey(cs);
    var named, start := NamedKeys(byKey.Keys, o.keys);
    assert start == if forall k :: k in o.keys ==> exists c :: c in cs && c.key == k then 0 else USAGE;
    var selected := AddMatching(cs, o, now, named);
    SelectedIsPicked(cs, o, now, byKey, named, selected);
    var keys := SortedKeys(selected);
    done, code := ProcessAll(byKey, keys, fails, start);
    DoneIsPicked(cs, o, now, byKey, selected, keys, done);
    forall i, j | 0 <= i < j < |done| ensures Less(done[i].key, done[j].key) && done[i].key != done[j].key {
      AscendingIsOnce(keys, i, j);
      assert keys[i] in keys && keys[j] in keys;
    }
  }
}
