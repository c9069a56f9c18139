/**
 The directory metadata cache: generation-stamped entries behind 64 shared gates, in front of
 a database. Each method of `Cache` is what one thread does while it holds a gate (shared for
 a probe, exclusive for a load or a write), so methods may be called in any order that the
 locks allow; eviction may strike between any two.

 Main result: `Valid` holds throughout, hence every hit is the database's answer at the
 moment of the probe, for the user, directory and name that were asked about.
 */
module MetadataCache {
  import opened Bytes
  import opened MonitorData
  import opened Names

  const GATES: nat := 64
  const MAX_GENERATION: u64 := 0xffff_ffff_ffff_ffff

  // ----- keys -----

  /** A directory listing, or one name looked up in a directory. */
  datatype Query = Query(user: string, directory: string, name: Option<string>)

  function Field(field: string): (s: string) {
    Decimal(|field|) + ":" + field
  }

  function NamespaceKey(user: string, directory: string): (s: string) {
    Field(user) + Field(directory)
  }

  function KeyOf(q: Query): (s: string) {
    NamespaceKey(q.user, q.directory) + NameField(q.name)
  }

  /** Digits contain no colon, so the first colon of both texts is at the same place. */
  lemma {:induction false} SamePrefix(a: string, b: string, s: string, t: string)
    requires (forall c <- a :: c in DECIMAL) && (forall c <- b :: c in DECIMAL)
    requires a + ":" + s == b + ":" + t
    ensures a == b && s == t
  {
    var u, v := a + ":" + s, b + ":" + t;
    assert u[0] == (if |a| == 0 then ':' else a[0]) && u[1..] == (if |a| == 0 then s else a[1..] + ":" + s);
    assert v[0] == (if |b| == 0 then ':' else b[0]) && v[1..] == (if |b| == 0 then t else b[1..] + ":" + t);
    assert ':' !in DECIMAL && (|a| > 0 ==> a[0] in DECIMAL) && (|b| > 0 ==> b[0] in DECIMAL);
    if |a| > 0 {
      SamePrefix(a[1..], b[1..], s, t);
      assert a == [a[0]] + a[1..] && b == [b[0]] + b[1..];
    }
  }

  /** A length-prefixed field can be read off the front of any text. */
  lemma FieldReadable(a: string, b: string, s: string, t: string)
    requires Field(a) + s == Field(b) + t
    ensures a == b && s == t
  {
    assert Field(a) + s == Decimal(|a|) + ":" + (a + s);
    assert Field(b) + t == Decimal(|b|) + ":" + (b + t);
    SamePrefix(Decimal(|a|), Decimal(|b|), a + s, b + t);
    DecimalInjective(|a|, |b|);
    assert (a + s)[..|a|] == a && (b + t)[..|a|] == b && (a + s)[|a|..] == s && (b + t)[|a|..] == t;
  }

  lemma NamespaceReadable(u: string, d: string, v: string, e: string, s: string, t: string)
    requires NamespaceKey(u, d) + s == NamespaceKey(v, e) + t
    ensures u == v && d == e && s == t
  {
    var f, g := Field(d), Field(e);
    assert NamespaceKey(u, d) + s == Field(u) + (f + s);
    assert NamespaceKey(v, e) + t == Field(v) + (g + t);
    FieldReadable(u, v, f + s, g + t);
    FieldReadable(d, e, s, t);
  }

  function NameField(name: Option<string>): (s: string) {
    if name.Some? then Field(name.value) else ""
  }

  lemma NameReadable(a: Option<string>, b: Option<string>)
    requires NameField(a) == NameField(b)
    ensures a == b
  {
    if a.Some? && b.Some? {
      assert Field(a.value) + "" == Field(a.value) && Field(b.value) + "" == Field(b.value);
      FieldReadable(a.value, b.value, "", "");
    }
  }

  /** Two different questions never share a key. */
  lemma KeysInjective(p: Query, q: Query)
    requires KeyOf(p) == KeyOf(q)
    ensures p == q
  {
    NamespaceReadable(p.user, p.directory, q.user, q.directory, NameField(p.name), NameField(q.name));
    NameReadable(p.name, q.name);
  }

  // ----- small computations -----

  /** Spread by key over plus or minus ten per cent. */
  function JitteredTtl(ttl: nat, hash: nat): (r: nat)
    ensures 9 * ttl <= 10 * r <= 11 * ttl
    ensures ttl % 100 == 0 ==> 100 * r == ttl * (90 + hash % 21)
  {
    ttl + ttl / 100 * (hash % 21 - 10)
  }

  /** One row of a listing: the sizes of its texts. */
  datatype FileInfo = FileInfo(nameSize: nat, typeSize: nat, createdSize: nat, updatedSize: nat)

  function RowBytes(f: FileInfo, row: nat): (n: nat) {
    row + f.nameSize + f.typeSize + f.createdSize + f.updatedSize
  }

  function ListBytes(files: seq<FileInfo>, header: nat, row: nat): (n: nat) {
    if |files| == 0 then header
    else ListBytes(files[..|files| - 1], header, row) + RowBytes(files[|files| - 1], row)
  }

  lemma {:induction false} PrefixIsSmaller(files: seq<FileInfo>, header: nat, row: nat, k: nat)
    requires k <= |files|
    ensures ListBytes(files[..k], header, row) <= ListBytes(files, header, row)
  {
    if k < |files| {
      PrefixIsSmaller(files[..|files| - 1], header, row, k);
      assert files[..|files| - 1][..k] == files[..k];
    } else {
      assert files[..k] == files;
    }
  }

  /** Compares before it adds, so `used` never passes `limit`. */
  method Fits(files: seq<FileInfo>, header: nat, row: nat, limit: nat) returns (fits: bool)
    ensures fits <==> ListBytes(files, header, row) <= limit
  {
    var used := header;
    if used > limit {
      PrefixIsSmaller(files, header, row, 0);
      return false;
    }
    for i := 0 to |files|
      invariant used == ListBytes(files[..i], header, row) <= limit
    {
      var f := files[i];
      assert files[..i + 1][..i] == files[..i];
      PrefixIsSmaller(files, header, row, i + 1);
      var sizes := [row, f.nameSize, f.typeSize, f.createdSize, f.updatedSize];
      ghost var start := used;
      for j := 0 to 5
        invariant used == start + Partial(f, row, j) <= limit
      {
        if sizes[j] > limit - used {
          return false;
        }
        used := used + sizes[j];
      }
    }
    assert files[..|files|] == files;
    return true;
  }

  /** The first `j` of the five sizes of a row. */
  function Partial(f: FileInfo, row: nat, j: nat): (n: nat)
    ensures n <= RowBytes(f, row)
  {
    if j == 0 then 0
    else if j == 1 then row
    else if j == 2 then row + f.nameSize
    else if j == 3 then row + f.nameSize + f.typeSize
    else if j == 4 then row + f.nameSize + f.typeSize + f.createdSize
    else RowBytes(f, row)
  }

  // ----- the cache -----

  /** `writing`: a writer holds the gate. */
  datatype Gate = Gate(generation: u64, enabled: bool, writing: bool)

  function Advanced(g: Gate): (next: Gate) {
    if g.generation == MAX_GENERATION then g.(enabled := false) else g.(generation := g.generation + 1)
  }

  datatype Entry<T> = Entry(value: T, expiresAt: int, generation: u64)

  class Cache<T(==)> {
    const hash: string -> nat
    const admissible: T -> bool
    const ttl: nat
    var gates: seq<Gate>
    var entries: map<string, Entry<T>>

    /** What the database answers now; `None` is a failure or an absent name. */
    var database: Query -> Option<T>

    function GateOf(user: string, directory: string): (i: nat)
      ensures i < 64 && i == hash(KeyOf(Query(user, directory, None))) % 64
    {
      assert KeyOf(Query(user, directory, None)) == NamespaceKey(user, directory);
      hash(NamespaceKey(user, directory)) % GATES
    }

    /** An entry that a probe could return is what the database says. */
    ghost predicate Faithful(q: Query)
      requires |gates| == GATES
      reads this
    {
      KeyOf(q) in entries ==>
        var e, g := entries[KeyOf(q)], gates[GateOf(q.user, q.directory)];
        && e.generation <= g.generation
        && (g.enabled && e.generation == g.generation && !g.writing ==> database(q) == Some(e.value))
    }

    ghost predicate Valid()
      reads this
    {
      |gates| == GATES && forall q: Query :: Faithful(q)
    }

    constructor (hash: string -> nat, admissible: T -> bool, ttl: nat, database: Query -> Option<T>)
      ensures Valid() && entries == map[] && this.database == database && this.hash == hash && this.ttl == ttl
      ensures this.admissible == admissible && gates == seq(64, _ => Gate(0, true, false))
    {
      this.hash, this.admissible, this.ttl, this.database := hash, admissible, ttl, database;
      gates, entries := seq(GATES, _ => Gate(0, true, false)), map[];
    }

    /** Nobody but a writer changes a gate; holding it shared or exclusively means no writer does. */
    predicate Open(user: string, directory: string)
      requires |gates| == GATES
      reads this
    {
      !gates[GateOf(user, directory)].writing
    }

    /** Present, unexpired and of the gate's present generation. */
    predicate Servable(q: Query, now: int)
      requires |gates| == GATES
      reads this
    {
      var g := gates[GateOf(q.user, q.directory)];
      && g.enabled && KeyOf(q) in entries && now < entries[KeyOf(q)].expiresAt
      && entries[KeyOf(q)].generation == g.generation
    }

    /** The hit path, under the shared lock: a hit is the database's answer at this moment. */
    method Probe(q: Query, now: int) returns (hit: Option<T>, stale: bool)
      requires Valid() && Open(q.user, q.directory)
      ensures hit.Some? ==> hit == database(q)
      ensures hit.Some? <==> Servable(q, now)
      ensures stale <==> gates[GateOf(q.user, q.directory)].enabled && KeyOf(q) in entries && !Servable(q, now)
    {
      var g := gates[GateOf(q.user, q.directory)];
      if !g.enabled || KeyOf(q) !in entries {
        return None, false;
      }
      assert Faithful(q);
      var e := entries[KeyOf(q)];
      if e.expiresAt <= now || e.generation != g.generation {
        return None, true;
      }
      return Some(e.value), false;
    }

    /** The miss path, under the exclusive lock: probe again, else load and fill. */
    method Load(q: Query, now: int) returns (r: Option<T>)
      requires Valid() && Open(q.user, q.directory)
      modifies this`entries
      ensures Valid() && r == database(q)
      ensures r.Some? && gates[GateOf(q.user, q.directory)].enabled && admissible(r.value) ==>
        && KeyOf(q) in entries && entries[KeyOf(q)].value == r.value
        && entries[KeyOf(q)].generation == gates[GateOf(q.user, q.directory)].generation
      ensures old(Servable(q, now)) ==> entries == old(entries)
      ensures !old(Servable(q, now)) && gates[GateOf(q.user, q.directory)].enabled ==>
        if r.Some? && admissible(r.value) then 9 * ttl <= 10 * (entries[KeyOf(q)].expiresAt - now) <= 11 * ttl
        else KeyOf(q) !in entries
      ensures forall k :: k != KeyOf(q) ==>
        (k in entries <==> k in old(entries)) && (k in entries ==> entries[k] == old(entries)[k])
    {
      var hit, stale := Probe(q, now);
      if hit.Some? {
        assert Faithful(q);
        return hit;
      }
      if stale {
        Drop({KeyOf(q)});
      }
      r := database(q);
      var g := gates[GateOf(q.user, q.directory)];
      if r.Some? && g.enabled && admissible(r.value) {
        Fill(q, Entry(r.value, now + JitteredTtl(ttl, hash(KeyOf(q))), g.generation));
      }
    }

    method Fill(q: Query, e: Entry<T>)
      requires Valid() && e.generation == gates[GateOf(q.user, q.directory)].generation && database(q) == Some(e.value)
      modifies this`entries
      ensures Valid() && entries == old(entries)[KeyOf(q) := e]
    {
      entries := entries[KeyOf(q) := e];
      forall p: Query ensures Faithful(p) {
        assert old(Faithful(p));
        if KeyOf(p) == KeyOf(q) {
          KeysInjective(p, q);
        }
      }
    }

    /** Erasing, and the eviction of any entries at any time. */
    method Drop(keys: set<string>)
      requires Valid()
      modifies this`entries
      ensures Valid() && entries == old(entries) - keys
    {
      entries := entries - keys;
      assert forall q: Query :: old(Faithful(q)) ==> Faithful(q);
    }

    /** A writer takes the gate of its directory. */
    method BeginWrite(user: string, directory: string)
      requires Valid() && Open(user, directory)
      modifies this`gates
      ensures Valid() && !Open(user, directory)
      ensures gates == old(gates)[GateOf(user, directory) := old(gates)[GateOf(user, directory)].(writing := true)]
    {
      var i := GateOf(user, directory);
      gates := gates[i := gates[i].(writing := true)];
      forall q: Query ensures Faithful(q) {
        assert old(Faithful(q));
      }
    }

    /** The database changes under the writer's hands, in that directory only. */
    method Commit(user: string, directory: string, next: Query -> Option<T>)
      requires Valid() && !Open(user, directory)
      requires forall q: Query :: q.user != user || q.directory != directory ==> next(q) == database(q)
      modifies this`database
      ensures Valid() && database == next
    {
      database := next;
      forall q: Query ensures Faithful(q) {
        assert old(Faithful(q));
      }
    }

    /** Whatever became of the write, its gate moves on before it opens. */
    method EndWrite(user: string, directory: string)
      requires Valid() && !Open(user, directory)
      modifies this`gates
      ensures Valid() && Open(user, directory)
      ensures var i := GateOf(user, directory);
        gates == old(gates)[i := Advanced(old(gates)[i]).(writing := false)]
    {
      var i := GateOf(user, directory);
      gates := gates[i := Advanced(gates[i]).(writing := false)];
      forall q: Query ensures Faithful(q) {
        assert old(Faithful(q));
      }
    }
  }
}
