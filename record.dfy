/** One decoded Wikidata entity record, and the two helpers every extractor
    shares (`EntData.get_claim_type`, `EntData.claim_object` in
    parser/code/entityparsers/entity.py).

    A JSON object is an ordered association list: Python dictionaries keep
    insertion order, and several extractors expose it (the first label,
    the order of time facts across predicates). */
module Record {
  import opened Common

  /** A decoded JSON object: its (key, value) pairs in document order. */
  type Dict<V> = seq<(string, V)>

  /** `d.get(k)`. */
  function Get<V>(d: Dict<V>, k: string): Option<V>
  {
    if d == [] then None else if d[0].0 == k then Some(d[0].1) else Get(d[1..], k)
  }

  /** `d.get(k)` is `None` exactly when no entry has key `k`, and otherwise
      the value of an entry with that key. */
  lemma {:induction false} GetMeaning<V>(d: Dict<V>, k: string)
    ensures Get(d, k).None? <==> forall i :: 0 <= i < |d| ==> d[i].0 != k
    ensures Get(d, k).Some? ==> exists i :: 0 <= i < |d| && d[i] == (k, Get(d, k).value)
  {
    if d != [] && d[0].0 != k {
      GetMeaning(d[1..], k);
      if Get(d, k).Some? {
        var i :| 0 <= i < |d[1..]| && d[1..][i] == (k, Get(d, k).value);
        assert d[i + 1] == d[1..][i];
      }
      forall i | 0 < i < |d| ensures d[i] == d[1..][i - 1] { }
    }
  }

  /** `list(d.keys())`. */
  function Keys<V>(d: Dict<V>): (r: seq<string>)
    ensures |r| == |d| && forall i :: 0 <= i < |d| ==> r[i] == d[i].0
  {
    seq(|d|, i requires 0 <= i < |d| => d[i].0)
  }

  /** `d[k] = v`: an existing key keeps its place and a new key goes last. */
  function Put<V>(d: Dict<V>, k: string, v: V): (r: Dict<V>)
    ensures Get(r, k) == Some(v)
    ensures forall j :: j != k ==> Get(r, j) == Get(d, j)
    ensures |r| == if Get(d, k).Some? then |d| else |d| + 1
    ensures forall i :: 0 <= i < |d| ==> r[i].0 == d[i].0
    ensures forall i :: 0 <= i < |d| && d[i].0 != k ==> r[i] == d[i]
    ensures Get(d, k).None? ==> r[|d|] == (k, v)
  {
    if d == [] then [(k, v)]
    else if d[0].0 == k then
      var r := [(k, v)] + d[1..];
      assert r[1..] == d[1..];
      r
    else
      var rest := Put(d[1..], k, v);
      var r := [d[0]] + rest;
      assert r[1..] == rest;
      r
  }

  /** Looking a key up in a list one entry longer: the earlier entries win. */
  lemma GetSnoc<V>(d: Dict<V>, x: (string, V), k: string)
    ensures Get(d + [x], k) == if Get(d, k).Some? then Get(d, k) else if x.0 == k then Some(x.1) else None
  {
    if d != [] {
      assert (d + [x])[1..] == d[1..] + [x];
      GetSnoc(d[1..], x, k);
    }
  }

  /** Assigning a key the dictionary lacks appends it. */
  lemma PutFresh<V>(d: Dict<V>, k: string, v: V)
    requires Get(d, k).None?
    ensures Put(d, k, v) == d + [(k, v)]
  {
    GetMeaning(d, k);
    var r := Put(d, k, v);
    forall i | 0 <= i < |r| ensures r[i] == (d + [(k, v)])[i] {
      if i < |d| {
        assert d[i].0 != k;
      }
    }
    assert r == d + [(k, v)];
  }

  /** `for k, v in src.items(): d[k] = f(v)`. */
  function PutAll<V, W>(src: Dict<V>, f: V -> W, d: Dict<W>): Dict<W>
  {
    if src == [] then d
    else
      var x := src[|src| - 1];
      Put(PutAll(src[..|src| - 1], f, d), x.0, f(x.1))
  }

  /** When the source lists every key once, each of its keys ends up
      holding `f` of its value, whatever it held before, and every other
      key is untouched. */
  lemma {:induction false} PutAllGet<V, W>(src: Dict<V>, f: V -> W, d: Dict<W>, k: string)
    requires Distinct(Keys(src))
    ensures Get(PutAll(src, f, d), k) ==
      if Get(src, k).Some? then Some(f(Get(src, k).value)) else Get(d, k)
  {
    if src != [] {
      var init, x := src[..|src| - 1], src[|src| - 1];
      assert src == init + [x];
      DistinctInit(src);
      PutAllGet(init, f, d, k);
      GetSnoc(init, x, k);
    }
  }

  /** Filling an empty dictionary from a source that lists every key once
      keeps the source's order. */
  lemma {:induction false} PutAllFresh<V, W>(src: Dict<V>, f: V -> W)
    requires Distinct(Keys(src))
    ensures |PutAll(src, f, [])| == |src|
    ensures forall i :: 0 <= i < |src| ==> PutAll(src, f, [])[i] == (src[i].0, f(src[i].1))
  {
    if src != [] {
      var init, x := src[..|src| - 1], src[|src| - 1];
      DistinctInit(src);
      PutAllFresh(init, f);
      var m := PutAll(init, f, []);
      assert Get(m, x.0).None? by {
        forall i | 0 <= i < |m| ensures m[i].0 != x.0 {
          assert m[i].0 == init[i].0;
        }
        GetMeaning(m, x.0);
      }
      PutFresh(m, x.0, f(x.1));
      assert PutAll(src, f, []) == m + [(x.0, f(x.1))];
      forall i | 0 <= i < |init| ensures PutAll(src, f, [])[i] == (src[i].0, f(src[i].1)) {
        assert init[i] == src[i];
      }
    }
  }

  /** Later assignments win: a key holds `f` of the value of the last
      source entry that names it. */
  lemma {:induction false} PutAllLast<V, W>(src: Dict<V>, f: V -> W, d: Dict<W>, i: nat)
    requires i < |src|
    requires forall j :: i < j < |src| ==> src[j].0 != src[i].0
    ensures Get(PutAll(src, f, d), src[i].0) == Some(f(src[i].1))
  {
    var init := src[..|src| - 1];
    if i < |src| - 1 {
      assert init[i] == src[i];
      PutAllLast(init, f, d, i);
    }
  }

  /** A key no source entry names keeps what it held. */
  lemma {:induction false} PutAllUntouched<V, W>(src: Dict<V>, f: V -> W, d: Dict<W>, k: string)
    requires forall j :: 0 <= j < |src| ==> src[j].0 != k
    ensures Get(PutAll(src, f, d), k) == Get(d, k)
  {
    if src != [] {
      var init := src[..|src| - 1];
      assert forall j :: 0 <= j < |init| ==> init[j] == src[j];
      PutAllUntouched(init, f, d, k);
    }
  }

  /** With every key listed once, each entry is what its key looks up. */
  lemma {:induction false} GetAt<V>(d: Dict<V>, i: nat)
    requires Distinct(Keys(d)) && i < |d|
    ensures Get(d, d[i].0) == Some(d[i].1)
  {
    if i > 0 {
      assert Keys(d)[0] != Keys(d)[i];
      var t := d[1..];
      forall a, b | 0 <= a < b < |t|
        ensures Keys(t)[a] != Keys(t)[b]
      {
        assert Keys(d)[a + 1] != Keys(d)[b + 1];
      }
      GetAt(t, i - 1);
    }
  }

  /** Without its last entry a dictionary still lists every key once, and
      does not list the last key. */
  lemma DistinctInit<V>(d: Dict<V>)
    requires Distinct(Keys(d)) && d != []
    ensures Distinct(Keys(d[..|d| - 1]))
    ensures Get(d[..|d| - 1], d[|d| - 1].0).None?
  {
    var init := d[..|d| - 1];
    forall i, j | 0 <= i < j < |init|
      ensures Keys(init)[i] != Keys(init)[j]
    {
      assert Keys(d)[i] != Keys(d)[j];
    }
    forall i | 0 <= i < |init|
      ensures init[i].0 != d[|d| - 1].0
    {
      assert Keys(d)[i] != Keys(d)[|init|];
    }
    GetMeaning(init, d[|d| - 1].0);
  }

  /** `d[k] = v` never lists a key twice. */
  lemma PutDistinct<V>(d: Dict<V>, k: string, v: V)
    requires Distinct(Keys(d))
    ensures Distinct(Keys(Put(d, k, v)))
  {
    var r := Put(d, k, v);
    GetMeaning(d, k);
    var ks, kd := Keys(r), Keys(d);
    forall i, j | 0 <= i < j < |r|
      ensures ks[i] != ks[j]
    {
      if j == |d| {
        assert d[i].0 != k;
      } else {
        assert kd[i] != kd[j];
      }
    }
  }

  lemma {:induction false} PutAllDistinct<V, W>(src: Dict<V>, f: V -> W, d: Dict<W>)
    requires Distinct(Keys(d))
    ensures Distinct(Keys(PutAll(src, f, d)))
  {
    if src != [] {
      var x := src[|src| - 1];
      PutAllDistinct(src[..|src| - 1], f, d);
      PutDistinct(PutAll(src[..|src| - 1], f, d), x.0, f(x.1));
    }
  }

  /** The payload of a value snak. Only the two kinds the extractors read
      into are told apart; every other value type keeps its type string. */
  type OtherType = t: string | t != "wikibase-entityid" && t != "time" witness "string"

  datatype DataValue =
    | EntityValue(id: string)
    | TimeValue(time: string, precision: int, calendarmodel: string)
    | OtherValue(vtype: OtherType)
  {
    /** The `type` field of the datavalue. */
    function Type(): string
    {
      match this
      case EntityValue(_) => "wikibase-entityid"
      case TimeValue(_, _, _) => "time"
      case OtherValue(t) => t
    }
  }

  /** `snaktype` together with what it carries: only a "value" snak has a datavalue. */
  datatype SnakValue = Value(datavalue: DataValue) | NoValue | SomeValue

  datatype Snak = Snak(property: string, dataType: string, snak: SnakValue)

  /** One entry of a claim's "references" list. */
  datatype RefBlock = RefBlock(snaks: Option<Dict<seq<Snak>>>)

  datatype Claim = Claim(
    ctype: string,
    mainsnak: Snak,
    qualifiers: Option<Dict<seq<Snak>>>,
    references: Option<seq<RefBlock>>)

  datatype Term = Term(language: string, value: string)

  datatype Sitelink = Sitelink(site: string, title: string, badges: seq<string>)

  /** An absent key and a JSON null are both `None`. The extractors read
      these fields with `data.get(key) != None` or `data.get(key)`, which
      treat the two alike; `LabelKeys` is the one reader that does not. */
  datatype Entity = Entity(
    id: string,
    labels: Option<Dict<Term>>,
    descriptions: Option<Dict<Term>>,
    sitelinks: Option<Dict<Sitelink>>,
    claims: Option<Dict<seq<Claim>>>)

  const INSTANCE_OF := "P31"
  const HUMAN := "Q5"
  const SEX_OR_GENDER := "P21"
  const FEMALE := "Q6581072"
  const MALE := "Q6581097"
  const GREGORIAN := "http://www.wikidata.org/entity/Q1985727"

  /** `EntData.get_claim_type`: "unknown" for a snak without a value,
      otherwise the datavalue's own type string. */
  function ClaimType(s: Snak): (r: string)
    ensures !s.snak.Value? ==> r == "unknown"
    ensures s.snak.Value? ==> r == s.snak.datavalue.Type()
    ensures r == "wikibase-entityid" <==> s.snak.Value? && s.snak.datavalue.EntityValue?
    ensures r == "time" <==> s.snak.Value? && s.snak.datavalue.TimeValue?
  {
    if !s.snak.Value? then "unknown" else s.snak.datavalue.Type()
  }

  /** The entity a snak points at, when it holds an entity value. */
  predicate IsEntitySnak(s: Snak)
  {
    s.snak.Value? && s.snak.datavalue.EntityValue?
  }

  function ObjectId(s: Snak): string
    requires IsEntitySnak(s)
  {
    s.snak.datavalue.id
  }

  /** `datavalue['value']['id']`: only an entity value has an id; the value
      of a "string" datavalue is a string, which cannot be indexed by a key
      (TypeError), and every other value is an object without "id" (KeyError). */
  function ValueId(v: DataValue): (r: Result<string>)
    ensures r.Ok? <==> v.EntityValue?
    ensures r.Ok? ==> r.value == v.id
    ensures v.OtherValue? ==> r == Fail(if v.vtype == "string" then TypeError else KeyError)
    ensures v.TimeValue? ==> r == Fail(KeyError)
  {
    match v
    case EntityValue(id) => Ok(id)
    case OtherValue(t) => if t == "string" then Fail(TypeError) else Fail(KeyError)
    case TimeValue(_, _, _) => Fail(KeyError)
  }

  /** `EntData.claim_object`: the object id of a statement whose main snak
      has a value; reading `['id']` of any other value raises. */
  function ClaimObject(c: Claim): (r: Result<Option<string>>)
    ensures r.Ok? && r.value.Some? <==>
      c.ctype == "statement" && IsEntitySnak(c.mainsnak)
    ensures r.Ok? && r.value.Some? ==> r.value.value == ObjectId(c.mainsnak)
    ensures r == Ok(None) <==> c.ctype != "statement" || !c.mainsnak.snak.Value?
    ensures r.Fail? ==> r == Fail(ValueId(c.mainsnak.snak.datavalue).error)
  {
    if c.ctype == "statement" && c.mainsnak.snak.Value? then
      match ValueId(c.mainsnak.snak.datavalue)
      case Ok(id) => Ok(Some(id))
      case Fail(e) => Fail(e)
    else Ok(None)
  }

  /** `target in map(claim_object, cs)`: scans left to right and stops at the
      first match, so a claim after the match is never read. */
  function ContainsObject(cs: seq<Claim>, target: string): Result<bool>
  {
    if cs == [] then Ok(false)
    else match ClaimObject(cs[0])
      case Fail(e) => Fail(e)
      case Ok(o) => if o == Some(target) then Ok(true) else ContainsObject(cs[1..], target)
  }

  /** The scan answers true exactly when some claim points at the target and
      no claim before it raised, and false exactly when every claim was read
      without raising and none points at the target. */
  lemma {:induction false} ContainsObjectMeaning(cs: seq<Claim>, target: string)
    ensures ContainsObject(cs, target) == Ok(true) <==>
      exists i :: 0 <= i < |cs| && ClaimObject(cs[i]) == Ok(Some(target)) &&
        forall j :: 0 <= j < i ==> ClaimObject(cs[j]).Ok?
    ensures ContainsObject(cs, target) == Ok(false) <==>
      forall i :: 0 <= i < |cs| ==> ClaimObject(cs[i]).Ok? && ClaimObject(cs[i]) != Ok(Some(target))
  {
    if cs != [] {
      ContainsObjectMeaning(cs[1..], target);
      if ClaimObject(cs[0]).Ok? && ClaimObject(cs[0]) != Ok(Some(target)) {
        assert forall i :: 1 <= i < |cs| ==> cs[i] == cs[1..][i - 1];
        if ContainsObject(cs, target) == Ok(true) {
          var i :| 0 <= i < |cs[1..]| && ClaimObject(cs[1..][i]) == Ok(Some(target)) &&
            forall j :: 0 <= j < i ==> ClaimObject(cs[1..][j]).Ok?;
          assert ClaimObject(cs[i + 1]) == Ok(Some(target));
        }
      }
    }
  }

  /** `statements.get(pred)` is present and `target in map(claim_object, ...)`:
      the filter of the human extractors ("P31" contains "Q5") and of the
      women extractor ("P21" contains "Q6581072"). */
  function HasObject(claims: Dict<seq<Claim>>, pred: string, target: string): (r: Result<bool>)
    ensures Get(claims, pred).None? ==> r == Ok(false)
  {
    match Get(claims, pred)
    case None => Ok(false)
    case Some(cs) => ContainsObject(cs, target)
  }

  /** `(key, v)` for every `v` of one dictionary entry. */
  function Tag<V>(key: string, vs: seq<V>): (r: seq<(string, V)>)
    ensures |r| == |vs| && forall i :: 0 <= i < |vs| ==> r[i] == (key, vs[i])
  {
    seq(|vs|, i requires 0 <= i < |vs| => (key, vs[i]))
  }

  /** The order in which `for k, vs in d.items(): for v in vs:` visits the values. */
  function Flatten<V>(d: Dict<seq<V>>): seq<(string, V)>
  {
    if d == [] then [] else Flatten(d[..|d| - 1]) + Tag(d[|d| - 1].0, d[|d| - 1].1)
  }

  /** What the nested loop has visited after `j` values of entry `i`. */
  function Visited<V>(d: Dict<seq<V>>, i: nat, j: nat): seq<(string, V)>
    requires i < |d| && j <= |d[i].1|
  {
    Flatten(d[..i]) + Tag(d[i].0, d[i].1[..j])
  }

  lemma VisitedStart<V>(d: Dict<seq<V>>, i: nat)
    requires i < |d|
    ensures Visited(d, i, 0) == Flatten(d[..i])
  {
  }

  lemma VisitedNext<V>(d: Dict<seq<V>>, i: nat, j: nat)
    requires i < |d| && j < |d[i].1|
    ensures Visited(d, i, j + 1) == Visited(d, i, j) + [(d[i].0, d[i].1[j])]
  {
    assert Tag(d[i].0, d[i].1[..j + 1]) == Tag(d[i].0, d[i].1[..j]) + [(d[i].0, d[i].1[j])];
  }

  lemma VisitedEnd<V>(d: Dict<seq<V>>, i: nat)
    requires i < |d|
    ensures Visited(d, i, |d[i].1|) == Flatten(d[..i + 1])
  {
    assert d[..i + 1][..i] == d[..i];
    assert d[i].1[..|d[i].1|] == d[i].1;
  }

  /** Each entry's values come out of the nested loop. */
  lemma {:induction false} FlattenPrefix<V>(d: Dict<seq<V>>, k: nat)
    requires k <= |d|
    ensures Flatten(d[..k]) <= Flatten(d)
    decreases |d| - k
  {
    if k < |d| {
      var d' := d[..|d| - 1];
      assert d'[..k] == d[..k];
      FlattenPrefix(d', k);
    } else {
      assert d[..k] == d;
    }
  }

  lemma InFlatten<V>(d: Dict<seq<V>>, i: nat, j: nat)
    requires i < |d| && j < |d[i].1|
    ensures (d[i].0, d[i].1[j]) in Flatten(d)
  {
    FlattenPrefix(d, i + 1);
    VisitedEnd(d, i);
    assert Visited(d, i, |d[i].1|)[|Flatten(d[..i])| + j] == (d[i].0, d[i].1[j]);
    assert Flatten(d)[|Flatten(d[..i])| + j] == (d[i].0, d[i].1[j]);
  }

  /** What the nested loop has visited is a prefix of the whole traversal. */
  lemma VisitedPrefix<V>(d: Dict<seq<V>>, i: nat, j: nat)
    requires i < |d| && j <= |d[i].1|
    ensures Visited(d, i, j) <= Flatten(d)
  {
    FlattenPrefix(d, i + 1);
    VisitedEnd(d, i);
    assert d[i].1[..j] <= d[i].1;
    assert Tag(d[i].0, d[i].1[..j]) <= Tag(d[i].0, d[i].1[..|d[i].1|]);
  }

  lemma FlattenAll<V>(d: Dict<seq<V>>)
    ensures Flatten(d[..|d|]) == Flatten(d)
  {
    assert d[..|d|] == d;
  }

  /** The claims of a record in the order `for pred, claims in statements.items():
      for claim in claims:` visits them, each with its predicate. */
  function ClaimPairs(e: Entity): seq<(string, Claim)>
  {
    if e.claims.Some? then Flatten(e.claims.value) else []
  }

  /** `get_claim_type` of a visited claim's main snak. */
  function TypeOf(x: (string, Claim)): string
  {
    ClaimType(x.1.mainsnak)
  }

  /** The number of visited claims whose main snak has type `t`. */
  function TypeCount(ps: seq<(string, Claim)>, t: string): nat
  {
    if ps == [] then 0
    else TypeCount(ps[..|ps| - 1], t) + (if TypeOf(ps[|ps| - 1]) == t then 1 else 0)
  }

  lemma TypeCountSnoc(ps: seq<(string, Claim)>, x: (string, Claim), t: string)
    ensures TypeCount(ps + [x], t) == TypeCount(ps, t) + (if TypeOf(x) == t then 1 else 0)
  {
    assert (ps + [x])[..|ps|] == ps;
  }

  /** The filter the human extractors share: the record has claims, a "P31"
      entry, and one of its claims points at "Q5". */
  function IsHuman(e: Entity): (r: Result<bool>)
    ensures e.claims.None? ==> r == Ok(false)
  {
    if e.claims.None? then Ok(false) else HasObject(e.claims.value, INSTANCE_OF, HUMAN)
  }

  /** The values paired with key `k`, in order. */
  function ValuesFor<V>(xs: seq<(string, V)>, k: string): seq<V>
  {
    if xs == [] then []
    else ValuesFor(xs[..|xs| - 1], k) + (if xs[|xs| - 1].0 == k then [xs[|xs| - 1].1] else [])
  }

  /** The dictionary `track = d.get(k, []); track.append(v); d[k] = track`
      builds when run over `xs` from an empty dictionary. */
  function GroupBy<V>(xs: seq<(string, V)>): map<string, seq<V>>
  {
    if xs == [] then map[]
    else
      var m := GroupBy(xs[..|xs| - 1]);
      var (k, v) := xs[|xs| - 1];
      m[k := (if k in m then m[k] else []) + [v]]
  }

  /** A key is present exactly when some pair carries it, and then it holds
      that key's values in order. */
  lemma {:induction false} GroupByMeaning<V>(xs: seq<(string, V)>)
    ensures forall k :: k in GroupBy(xs) <==> ValuesFor(xs, k) != []
    ensures forall k :: k in GroupBy(xs) ==> GroupBy(xs)[k] == ValuesFor(xs, k)
  {
    if xs != [] {
      GroupByMeaning(xs[..|xs| - 1]);
    }
  }

  lemma GroupBySnoc<V>(xs: seq<(string, V)>, k: string, v: V)
    ensures var m := GroupBy(xs); GroupBy(xs + [(k, v)]) == m[k := (if k in m then m[k] else []) + [v]]
  {
    assert (xs + [(k, v)])[..|xs|] == xs;
  }

  /** The values paired with a key whose kind, by `kindOf`, is `kind`. */
  function OfKind<V>(xs: seq<(string, V)>, kindOf: V -> string, kind: string): seq<(string, V)>
  {
    if xs == [] then []
    else
      OfKind(xs[..|xs| - 1], kindOf, kind) +
        (if kindOf(xs[|xs| - 1].1) == kind then [xs[|xs| - 1]] else [])
  }

  lemma {:induction false} OfKindMeaning<V>(xs: seq<(string, V)>, kindOf: V -> string, kind: string)
    ensures forall x :: x in OfKind(xs, kindOf, kind) <==> x in xs && kindOf(x.1) == kind
  {
    if xs != [] {
      OfKindMeaning(xs[..|xs| - 1], kindOf, kind);
      assert xs == xs[..|xs| - 1] + [xs[|xs| - 1]];
    }
  }

  lemma OfKindSnoc<V>(xs: seq<(string, V)>, kindOf: V -> string, x: (string, V), kind: string)
    ensures OfKind(xs + [x], kindOf, kind) == OfKind(xs, kindOf, kind) + (if kindOf(x.1) == kind then [x] else [])
  {
    assert (xs + [x])[..|xs|] == xs;
  }

  /** A two-level dictionary filled by `target = d[kind(v)]; sub = target.get(k, []);
      sub.append(v); target[k] = sub`, from one empty dictionary per kind. */
  function Partition<V>(xs: seq<(string, V)>, kindOf: V -> string, kinds: set<string>): (t: map<string, map<string, seq<V>>>)
    ensures t.Keys == kinds
  {
    map kind | kind in kinds :: GroupBy(OfKind(xs, kindOf, kind))
  }

  /** A value filed under `[kind][k]` is of that kind and was paired with `k`. */
  lemma PartitionFrom<V>(xs: seq<(string, V)>, kindOf: V -> string, kinds: set<string>, kind: string, k: string, v: V)
    requires var t := Partition(xs, kindOf, kinds); kind in t && k in t[kind] && v in t[kind][k]
    ensures kindOf(v) == kind && (k, v) in xs
  {
    var sel := OfKind(xs, kindOf, kind);
    GroupByMeaning(sel);
    ValuesForFrom(sel, k);
    OfKindMeaning(xs, kindOf, kind);
    assert v in ValuesFor(sel, k);
    assert (k, v) in sel;
  }

  /** A value of a listed kind is filed under its kind and key. */
  lemma PartitionCovers<V>(xs: seq<(string, V)>, kindOf: V -> string, kinds: set<string>, k: string, v: V)
    requires (k, v) in xs && kindOf(v) in kinds
    ensures var t := Partition(xs, kindOf, kinds); k in t[kindOf(v)] && v in t[kindOf(v)][k]
  {
    var sel := OfKind(xs, kindOf, kindOf(v));
    OfKindMeaning(xs, kindOf, kindOf(v));
    ValuesForHas(sel, k, v);
    GroupByMeaning(sel);
  }

  /** A value paired with `k` is listed for `k`. */
  lemma {:induction false} ValuesForHas<V>(xs: seq<(string, V)>, k: string, v: V)
    requires (k, v) in xs
    ensures v in ValuesFor(xs, k)
  {
    var t := xs[..|xs| - 1];
    if xs[|xs| - 1] != (k, v) {
      assert xs == t + [xs[|xs| - 1]];
      ValuesForHas(t, k, v);
    }
  }

  /** Filing one more value touches only its own kind. */
  lemma FiledSnoc<V>(xs: seq<(string, V)>, kindOf: V -> string, k: string, v: V, kind: string)
    ensures var m := GroupBy(OfKind(xs, kindOf, kind));
      GroupBy(OfKind(xs + [(k, v)], kindOf, kind)) ==
        if kindOf(v) == kind then m[k := (if k in m then m[k] else []) + [v]] else m
  {
    OfKindSnoc(xs, kindOf, (k, v), kind);
    if kindOf(v) == kind {
      GroupBySnoc(OfKind(xs, kindOf, kind), k, v);
    } else {
      assert OfKind(xs, kindOf, kind) + [] == OfKind(xs, kindOf, kind);
    }
  }

  /** Filing one more value appends it under its kind and key, and changes nothing else. */
  lemma PartitionSnoc<V>(xs: seq<(string, V)>, kindOf: V -> string, kinds: set<string>, k: string, v: V)
    requires kindOf(v) in kinds
    ensures var t := Partition(xs, kindOf, kinds); var target := t[kindOf(v)];
      Partition(xs + [(k, v)], kindOf, kinds) ==
        t[kindOf(v) := target[k := (if k in target then target[k] else []) + [v]]]
  {
    var t := Partition(xs, kindOf, kinds);
    var target := t[kindOf(v)];
    var t' := t[kindOf(v) := target[k := (if k in target then target[k] else []) + [v]]];
    var u := Partition(xs + [(k, v)], kindOf, kinds);
    forall kind | kind in kinds
      ensures u[kind] == t'[kind]
    {
      FiledSnoc(xs, kindOf, k, v, kind);
    }
    assert u.Keys == t'.Keys;
  }

  /** Every value listed for `k` was paired with `k`. */
  lemma {:induction false} ValuesForFrom<V>(xs: seq<(string, V)>, k: string)
    ensures forall v :: v in ValuesFor(xs, k) ==> (k, v) in xs
  {
    if xs != [] {
      ValuesForFrom(xs[..|xs| - 1], k);
      assert forall y :: y in xs[..|xs| - 1] ==> y in xs;
      assert xs[|xs| - 1] in xs;
    }
  }

  /** No key is listed twice. */
  predicate Distinct(bs: seq<string>)
  {
    forall i, j :: 0 <= i < j < |bs| ==> bs[i] != bs[j]
  }

  /** The visited claims whose type is one of `bs`. */
  function InCount(ps: seq<(string, Claim)>, bs: seq<string>): (n: nat)
    ensures n <= |ps|
  {
    if ps == [] then 0 else InCount(ps[..|ps| - 1], bs) + (if TypeOf(ps[|ps| - 1]) in bs then 1 else 0)
  }

  /** `TypeCount` summed over the types `bs`. */
  function SumCounts(ps: seq<(string, Claim)>, bs: seq<string>): nat
  {
    if bs == [] then 0 else SumCounts(ps, bs[..|bs| - 1]) + TypeCount(ps, bs[|bs| - 1])
  }

  /** The values of `m` at the keys `ks`, added up. */
  function SumOver(m: map<string, nat>, ks: seq<string>): nat
    requires forall k :: k in ks ==> k in m
  {
    if ks == [] then 0 else SumOver(m, ks[..|ks| - 1]) + m[ks[|ks| - 1]]
  }

  lemma {:induction false} SumCountsSnoc(ps: seq<(string, Claim)>, x: (string, Claim), bs: seq<string>)
    requires Distinct(bs)
    ensures SumCounts(ps + [x], bs) == SumCounts(ps, bs) + (if TypeOf(x) in bs then 1 else 0)
  {
    if bs != [] {
      var bs', b := bs[..|bs| - 1], bs[|bs| - 1];
      SumCountsSnoc(ps, x, bs');
      TypeCountSnoc(ps, x, b);
      assert TypeOf(x) in bs <==> TypeOf(x) in bs' || TypeOf(x) == b by { assert bs == bs' + [b]; }
      if TypeOf(x) == b {
        assert b !in bs';
      }
    }
  }

  /** With distinct types, summing the per-type counts counts each claim of
      one of those types once. */
  lemma {:induction false} SumCountsIsInCount(ps: seq<(string, Claim)>, bs: seq<string>)
    requires Distinct(bs)
    ensures SumCounts(ps, bs) == InCount(ps, bs)
  {
    if ps == [] {
      SumCountsEmpty(bs);
    } else {
      var t := ps[..|ps| - 1];
      assert ps == t + [ps[|ps| - 1]];
      SumCountsIsInCount(t, bs);
      SumCountsSnoc(t, ps[|ps| - 1], bs);
    }
  }

  lemma {:induction false} SumCountsEmpty(bs: seq<string>)
    ensures SumCounts([], bs) == 0
  {
    if bs != [] {
      SumCountsEmpty(bs[..|bs| - 1]);
    }
  }

  lemma {:induction false} InCountAll(ps: seq<(string, Claim)>, bs: seq<string>)
    requires forall x :: x in ps ==> TypeOf(x) in bs
    ensures InCount(ps, bs) == |ps|
  {
    if ps != [] {
      assert ps[|ps| - 1] in ps;
      InCountAll(ps[..|ps| - 1], bs);
    }
  }

  lemma {:induction false} SumOverCounts(m: map<string, nat>, ps: seq<(string, Claim)>, ks: seq<string>)
    requires forall k :: k in ks ==> k in m && m[k] == TypeCount(ps, k)
    ensures SumOver(m, ks) == SumCounts(ps, ks)
  {
    if ks != [] {
      SumOverCounts(m, ps, ks[..|ks| - 1]);
    }
  }

  /** `list(data.get('labels', {}).keys())`. A null `labels` is read like
      an absent one, giving no keys, where Python raises AttributeError on
      `None.keys()`. */
  function LabelKeys(e: Entity): (r: seq<string>)
    ensures e.labels.None? ==> r == []
    ensures e.labels.Some? ==> |r| == |e.labels.value|
  {
    if e.labels.Some? then Keys(e.labels.value) else []
  }
}
