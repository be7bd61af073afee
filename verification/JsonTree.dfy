/** JSON values as trees, printed and read over any spelling of their leaves and keys. */
module JsonTree {
  import opened Numbers
  import opened JsonLexemes

  datatype Scalar = Null | Bool(b: bool) | Str(text: string) | Num(number: NumberText)

  datatype Json = Leaf(scalar: Scalar) | Arr(items: seq<Json>) | Obj(fields: map<string, Json>)

  /** How leaves and keys are normalised, spelled as they stand, printed and read. */
  datatype Spelling = Spelling(
    valid: Scalar -> bool,
    norm: Scalar -> Scalar,
    plain: Scalar -> string,
    show: Scalar -> string,
    key: string -> string,
    read: (string, nat) -> Result<Scalar>,
    readKey: (string, nat) -> Result<string>)

  /** Every leaf of the value is valid. */
  predicate Valid(v: Json, sp: Spelling) {
    match v
    case Leaf(x) => sp.valid(x)
    case Arr(items) => forall i | 0 <= i < |items| :: Valid(items[i], sp)
    case Obj(fields) => forall k | k in fields :: Valid(fields[k], sp)
  }

  /** The value with every leaf in its normal form. */
  function Norm(v: Json, sp: Spelling): Json {
    match v
    case Leaf(x) => Leaf(sp.norm(x))
    case Arr(items) => Arr(seq(|items|, i requires 0 <= i < |items| => Norm(items[i], sp)))
    case Obj(fields) => Obj(map k | k in fields :: Norm(fields[k], sp))
  }

  // ---- key order ----

  predicate Less(a: string, b: string)
    decreases |a|
  {
    b != "" && (a == "" || a[0] < b[0] || (a[0] == b[0] && Less(a[1..], b[1..])))
  }

  lemma {:induction false} LessTotal(a: string, b: string)
    ensures a == b || Less(a, b) || Less(b, a)
    ensures !(Less(a, b) && Less(b, a)) && !Less(a, a)
    decreases |a|
  {
    if a != "" {
      LessTotal(a[1..], a[1..]);
      if b != "" && a[0] == b[0] {
        LessTotal(a[1..], b[1..]);
        assert a == [a[0]] + a[1..] && b == [b[0]] + b[1..];
      }
    }
  }

  lemma {:induction false} LessTransitive(a: string, b: string, c: string)
    requires Less(a, b) && Less(b, c)
    ensures Less(a, c)
    decreases |a|
  {
    if a != "" && a[0] == b[0] == c[0] {
      LessTransitive(a[1..], b[1..], c[1..]);
    }
  }

  predicate IsLeast(k: string, keys: set<string>) {
    k in keys && forall j | j in keys && j != k :: Less(k, j)
  }

  lemma {:induction false} LeastExists(keys: set<string>)
    requires keys != {}
    ensures exists k :: IsLeast(k, keys)
    decreases |keys|
  {
    var x :| x in keys;
    var rest := keys - {x};
    if rest == {} {
      assert keys == {x};
      assert IsLeast(x, keys);
    } else {
      LeastExists(rest);
      var m :| IsLeast(m, rest);
      LessTotal(x, m);
      if Less(m, x) {
        assert IsLeast(m, keys);
      } else {
        forall j | j in keys && j != x ensures Less(x, j) {
          if j != m {
            LessTransitive(x, m, j);
          }
        }
        assert IsLeast(x, keys);
      }
    }
  }

  lemma LeastUnique(keys: set<string>)
    ensures forall j, k | IsLeast(j, keys) && IsLeast(k, keys) :: j == k
  {
    forall j, k | IsLeast(j, keys) && IsLeast(k, keys) ensures j == k {
      LessTotal(j, k);
    }
  }

  predicate Increasing(q: seq<string>) {
    forall i, j | 0 <= i < j < |q| :: Less(q[i], q[j])
  }

  /** The keys in increasing order, each once. */
  function SortedKeys(keys: set<string>): (q: seq<string>)
    ensures (forall k :: k in q <==> k in keys) && Increasing(q)
    decreases |keys|
  {
    if keys == {} then [] else
      LeastExists(keys); LeastUnique(keys);
      var k :| IsLeast(k, keys);
      [k] + SortedKeys(keys - {k})
  }

  // ---- printing ----

  function Print(v: Json, sp: Spelling): string
    decreases v, 1, 0
  {
    match v
    case Leaf(x) => sp.show(x)
    case Arr(items) => "[" + (if items == [] then "]" else PrintItems(v, 0, sp))
    case Obj(fields) =>
      var keys := SortedKeys(fields.Keys);
      "{" + (if keys == [] then "}" else PrintFields(v, keys, 0, sp))
  }

  /** The items from k on and the closing bracket. */
  function PrintItems(v: Json, k: nat, sp: Spelling): string
    requires v.Arr? && k < |v.items|
    decreases v, 0, |v.items| - k, 1
  {
    Print(v.items[k], sp) + ItemTail(v, k, sp)
  }

  function ItemTail(v: Json, k: nat, sp: Spelling): string
    requires v.Arr? && k < |v.items|
    decreases v, 0, |v.items| - k, 0
  {
    if k + 1 == |v.items| then "]" else "," + PrintItems(v, k + 1, sp)
  }

  /** The fields from k on and the closing brace. */
  function PrintFields(v: Json, keys: seq<string>, k: nat, sp: Spelling): string
    requires v.Obj? && k < |keys| && forall j | j in keys :: j in v.fields
    decreases v, 0, |keys| - k, 1
  {
    (sp.key(keys[k]) + ":") +
    (Print(v.fields[keys[k]], sp) + FieldTail(v, keys, k, sp))
  }

  function FieldTail(v: Json, keys: seq<string>, k: nat, sp: Spelling): string
    requires v.Obj? && k < |keys| && forall j | j in keys :: j in v.fields
    decreases v, 0, |keys| - k, 0
  {
    if k + 1 == |keys| then "}" else "," + PrintFields(v, keys, k + 1, sp)
  }

  // ---- reading ----

  predicate IsSpace(c: char) {
    c == ' ' || c == '\t' || c == '\n' || c == '\r'
  }

  function Skip(s: string, i: nat): (r: nat)
    requires i <= |s|
    ensures i <= r <= |s| && (r < |s| ==> !IsSpace(s[r]))
    decreases |s| - i
  {
    if i < |s| && IsSpace(s[i]) then Skip(s, i + 1) else i
  }

  function ReadLeaf(s: string, i: nat, sp: Spelling): (r: Result<Json>)
    ensures r.Ok? ==> i < r.next <= |s|
  {
    var x := sp.read(s, i);
    if x.Fail? || !(i < x.next <= |s|) then Fail else Ok(Leaf(x.value), x.next)
  }

  function ReadName(s: string, i: nat, sp: Spelling): (r: Result<string>)
    ensures r.Ok? ==> i < r.next <= |s|
  {
    var x := sp.readKey(s, i);
    if x.Fail? || !(i < x.next <= |s|) then Fail else x
  }

  /** One value that starts at i. */
  function ReadValue(s: string, i: nat, sp: Spelling): (r: Result<Json>)
    ensures r.Ok? ==> i < r.next <= |s|
    decreases |s| - i, 1
  {
    if i >= |s| then Fail
    else if s[i] == '[' then
      var j := Skip(s, i + 1);
      if j < |s| && s[j] == ']' then Ok(Arr([]), j + 1) else ReadItems(s, j, [], sp)
    else if s[i] == '{' then
      var j := Skip(s, i + 1);
      if j < |s| && s[j] == '}' then Ok(Obj(map[]), j + 1) else ReadFields(s, j, map[], sp)
    else ReadLeaf(s, i, sp)
  }

  /** The items from i on, after those already read. */
  function ReadItems(s: string, i: nat, read: seq<Json>, sp: Spelling): (r: Result<Json>)
    ensures r.Ok? ==> i < r.next <= |s|
    decreases |s| - i, 2
  {
    var item := ReadValue(s, i, sp);
    if item.Fail? then Fail else
      var j := Skip(s, item.next);
      if j == |s| then Fail
      else if s[j] == ']' then Ok(Arr(read + [item.value]), j + 1)
      else if s[j] == ',' then ReadItems(s, Skip(s, j + 1), read + [item.value], sp)
      else Fail
  }

  datatype Field = Field(name: string, value: Json)

  /** One field: key, colon, value. */
  function ReadField(s: string, i: nat, sp: Spelling): (r: Result<Field>)
    ensures r.Ok? ==> i < r.next <= |s|
    decreases |s| - i, 2
  {
    var key := ReadName(s, i, sp);
    if key.Fail? then Fail else
      var c := Skip(s, key.next);
      if c == |s| || s[c] != ':' then Fail else
        var item := ReadValue(s, Skip(s, c + 1), sp);
        if item.Fail? then Fail else Ok(Field(key.value, item.value), item.next)
  }

  /** The fields from i on; a key may not occur twice. */
  function ReadFields(s: string, i: nat, read: map<string, Json>, sp: Spelling): (r: Result<Json>)
    ensures r.Ok? ==> i < r.next <= |s|
    decreases |s| - i, 3
  {
    var field := ReadField(s, i, sp);
    if field.Fail? || field.value.name in read then Fail else
      var j := Skip(s, field.next);
      var fields := read[field.value.name := field.value.value];
      if j == |s| then Fail
      else if s[j] == '}' then Ok(Obj(fields), j + 1)
      else if s[j] == ',' then ReadFields(s, Skip(s, j + 1), fields, sp)
      else Fail
  }

  datatype Decoded = Malformed | Decoded(value: Json)

  /** One value with nothing but space around it. */
  function Decode(s: string, sp: Spelling): Decoded {
    var v := ReadValue(s, Skip(s, 0), sp);
    if v.Fail? || Skip(s, v.next) != |s| then Malformed else Decoded(v.value)
  }

  // ---- reading what was printed ----

  /** What may follow a printed value. */
  predicate Ends(s: string, j: nat) {
    j < |s| ==> s[j] == ',' || s[j] == ']' || s[j] == '}'
  }

  predicate StartsLeaf(c: char) {
    !IsSpace(c) && c != '[' && c != ']' && c != '{' && c != '}'
  }

  /** What a spelling owes the tree: printing spells the normal form, and a spelled leaf or key reads
      back as itself. */
  ghost predicate LeafPrints(sp: Spelling, x: Scalar) {
    sp.valid(x) ==> sp.valid(sp.norm(x)) && sp.show(x) == sp.plain(sp.norm(x))
  }

  ghost predicate LeafReads(sp: Spelling, x: Scalar, s: string, i: nat) {
    var t := sp.plain(x);
    sp.valid(x) && At(s, i, t) && Ends(s, i + |t|) ==> t != "" && StartsLeaf(t[0]) && sp.read(s, i) == Ok(x, i + |t|)
  }

  ghost predicate KeyReads(sp: Spelling, k: string, s: string, i: nat) {
    var t := sp.key(k);
    At(s, i, t) ==> t != "" && t[0] == '\"' && sp.readKey(s, i) == Ok(k, i + |t|)
  }

  ghost predicate Faithful(sp: Spelling) {
    && (forall x :: LeafPrints(sp, x))
    && (forall x, s, i :: LeafReads(sp, x, s, i))
    && (forall k, s, i :: KeyReads(sp, k, s, i))
  }

  lemma FirstChar(v: Json, sp: Spelling)
    requires Faithful(sp) && Valid(v, sp)
    ensures Print(v, sp) != "" && !IsSpace(Print(v, sp)[0]) && Print(v, sp)[0] != ']' && Print(v, sp)[0] != '}'
  {
    if v.Leaf? {
      assert LeafPrints(sp, v.scalar);
      assert LeafReads(sp, sp.norm(v.scalar), sp.show(v.scalar), 0);
    }
  }

  lemma {:induction false} ValueRead(s: string, i: nat, v: Json, sp: Spelling)
    requires Faithful(sp) && Valid(v, sp) && At(s, i, Print(v, sp)) && Ends(s, i + |Print(v, sp)|)
    ensures ReadValue(s, i, sp) == Ok(Norm(v, sp), i + |Print(v, sp)|)
    decreases v, 1, 0
  {
    match v
    case Leaf(x) =>
      assert LeafPrints(sp, x);
      assert LeafReads(sp, sp.norm(x), s, i);
      assert s[i + 0] == sp.show(x)[0];
    case Arr(items) =>
      if items == [] {
        assert s[i + 0] == Print(v, sp)[0] && s[i + 1] == Print(v, sp)[1];
        assert Norm(v, sp).items == [];
      } else {
        ArrayRead(s, i, v, sp);
      }
    case Obj(fields) =>
      if fields.Keys == {} {
        assert s[i + 0] == Print(v, sp)[0] && s[i + 1] == Print(v, sp)[1];
        assert Norm(v, sp).fields == map[];
      } else {
        ObjectRead(s, i, v, sp);
      }
  }

  lemma {:induction false} ArrayRead(s: string, i: nat, v: Json, sp: Spelling)
    requires Faithful(sp) && v.Arr? && v.items != [] && Valid(v, sp) && At(s, i, Print(v, sp))
    ensures ReadValue(s, i, sp) == Ok(Norm(v, sp), i + |Print(v, sp)|)
    decreases v, 0, |v.items| + 1, 0
  {
    AtSplit(s, i, "[", PrintItems(v, 0, sp));
    assert s[i + 0] == "["[0];
    ItemFirst(s, i + 1, v, 0, sp);
    NormToAll(v, sp);
    ItemsRead(s, i + 1, v, 0, sp);
  }

  lemma LastItem(s: string, i: nat, read: seq<Json>, x: Json, j: nat, sp: Spelling)
    requires ReadValue(s, i, sp) == Ok(x, j) && j < |s| && s[j] == ']'
    ensures ReadItems(s, i, read, sp) == Ok(Arr(read + [x]), j + 1)
  {
  }

  lemma NextItem(s: string, i: nat, read: seq<Json>, x: Json, j: nat, sp: Spelling)
    requires ReadValue(s, i, sp) == Ok(x, j) && j + 1 < |s| && s[j] == ',' && !IsSpace(s[j + 1])
    ensures ReadItems(s, i, read, sp) == ReadItems(s, j + 1, read + [x], sp)
  {
  }

  /** The normal forms of the first k items. */
  ghost function NormTo(v: Json, k: nat, sp: Spelling): seq<Json>
    requires v.Arr? && k <= |v.items|
  {
    seq(k, i requires 0 <= i < k => Norm(v.items[i], sp))
  }

  lemma NormToNext(v: Json, k: nat, sp: Spelling)
    requires v.Arr? && k < |v.items|
    ensures NormTo(v, k, sp) + [Norm(v.items[k], sp)] == NormTo(v, k + 1, sp)
  {
  }

  lemma NormToAll(v: Json, sp: Spelling)
    requires v.Arr?
    ensures NormTo(v, 0, sp) == [] && Norm(v, sp) == Arr(NormTo(v, |v.items|, sp))
  {
    assert Norm(v, sp).items == NormTo(v, |v.items|, sp);
  }

  lemma {:induction false} ItemsRead(s: string, i: nat, v: Json, k: nat, sp: Spelling)
    requires Faithful(sp) && v.Arr? && Valid(v, sp) && k < |v.items| && At(s, i, PrintItems(v, k, sp))
    ensures ReadItems(s, i, NormTo(v, k, sp), sp) == Ok(Arr(NormTo(v, |v.items|, sp)), i + |PrintItems(v, k, sp)|)
    decreases v, 0, |v.items| - k, 1
  {
    AtSplit(s, i, Print(v.items[k], sp), ItemTail(v, k, sp));
    var j := i + |Print(v.items[k], sp)|;
    assert s[j + 0] == ItemTail(v, k, sp)[0];
    ValueRead(s, i, v.items[k], sp);
    ItemTailRead(s, i, v, k, Norm(v.items[k], sp), j, sp);
  }

  lemma {:induction false} ItemTailRead(s: string, i: nat, v: Json, k: nat, x: Json, j: nat, sp: Spelling)
    requires Faithful(sp) && v.Arr? && Valid(v, sp) && k < |v.items| && At(s, j, ItemTail(v, k, sp))
    requires x == Norm(v.items[k], sp) && ReadValue(s, i, sp) == Ok(x, j)
    ensures ReadItems(s, i, NormTo(v, k, sp), sp) == Ok(Arr(NormTo(v, |v.items|, sp)), j + |ItemTail(v, k, sp)|)
    decreases v, 0, |v.items| - k, 0
  {
    NormToNext(v, k, sp);
    assert s[j + 0] == ItemTail(v, k, sp)[0];
    if k + 1 == |v.items| {
      LastItem(s, i, NormTo(v, k, sp), x, j, sp);
    } else {
      AtSplit(s, j, ",", PrintItems(v, k + 1, sp));
      ItemFirst(s, j + 1, v, k + 1, sp);
      ItemsRead(s, j + 1, v, k + 1, sp);
      NextItem(s, i, NormTo(v, k, sp), x, j, sp);
    }
  }

  lemma ItemFirst(s: string, i: nat, v: Json, k: nat, sp: Spelling)
    requires Faithful(sp) && v.Arr? && Valid(v, sp) && k < |v.items| && At(s, i, PrintItems(v, k, sp))
    ensures i < |s| && !IsSpace(s[i]) && s[i] != ']'
  {
    FirstChar(v.items[k], sp);
    assert s[i + 0] == PrintItems(v, k, sp)[0] == Print(v.items[k], sp)[0];
  }

  // ---- objects ----

  lemma LastField(s: string, i: nat, read: map<string, Json>, f: Field, j: nat, sp: Spelling)
    requires ReadField(s, i, sp) == Ok(f, j) && f.name !in read && j < |s| && s[j] == '}'
    ensures ReadFields(s, i, read, sp) == Ok(Obj(read[f.name := f.value]), j + 1)
  {
  }

  lemma NextField(s: string, i: nat, read: map<string, Json>, f: Field, j: nat, sp: Spelling)
    requires ReadField(s, i, sp) == Ok(f, j) && f.name !in read && j + 1 < |s| && s[j] == ',' && !IsSpace(s[j + 1])
    ensures ReadFields(s, i, read, sp) == ReadFields(s, j + 1, read[f.name := f.value], sp)
  {
  }

  /** The normal fields of the first k keys. */
  ghost function Prefix(v: Json, keys: seq<string>, k: nat, sp: Spelling): map<string, Json>
    requires v.Obj? && k <= |keys| && forall j | j in keys :: j in v.fields
  {
    if k == 0 then map[] else Prefix(v, keys, k - 1, sp)[keys[k - 1] := Norm(v.fields[keys[k - 1]], sp)]
  }

  lemma {:induction false} PrefixFields(v: Json, keys: seq<string>, k: nat, sp: Spelling)
    requires v.Obj? && k <= |keys| && forall j | j in keys :: j in v.fields
    ensures forall key :: key in Prefix(v, keys, k, sp) <==> key in keys[..k]
    ensures forall key | key in keys[..k] :: Prefix(v, keys, k, sp)[key] == Norm(v.fields[key], sp)
  {
    if k > 0 {
      PrefixFields(v, keys, k - 1, sp);
      assert keys[..k] == keys[..k - 1] + [keys[k - 1]];
    }
  }

  lemma KeyIsNew(v: Json, keys: seq<string>, k: nat, sp: Spelling)
    requires v.Obj? && k < |keys| && (forall j | j in keys :: j in v.fields) && Increasing(keys)
    ensures keys[k] !in Prefix(v, keys, k, sp)
  {
    PrefixFields(v, keys, k, sp);
    forall m | 0 <= m < k ensures keys[m] != keys[k] {
      LessTotal(keys[m], keys[k]);
    }
  }

  lemma PrefixIsNorm(v: Json, sp: Spelling)
    requires v.Obj?
    ensures var keys := SortedKeys(v.fields.Keys); Norm(v, sp) == Obj(Prefix(v, keys, |keys|, sp))
  {
    var keys := SortedKeys(v.fields.Keys);
    PrefixFields(v, keys, |keys|, sp);
    assert keys[..|keys|] == keys;
    assert Norm(v, sp).fields == Prefix(v, keys, |keys|, sp);
  }

  /** The key and the colon of one printed field, in place. */
  lemma NameRead(s: string, i: nat, name: string, t: string, sp: Spelling)
    requires Faithful(sp) && At(s, i, (sp.key(name) + ":") + t) && t != "" && !IsSpace(t[0])
    ensures var c := i + |sp.key(name)|;
            ReadName(s, i, sp) == Ok(name, c) && c + 1 < |s| && s[c] == ':' && !IsSpace(s[c + 1]) && At(s, c + 1, t)
  {
    AtSplit(s, i, sp.key(name) + ":", t);
    AtSplit(s, i, sp.key(name), ":");
    assert KeyReads(sp, name, s, i);
    var c := i + |sp.key(name)|;
    assert s[c + 0] == ":"[0];
    assert s[c + 1 + 0] == t[0];
  }

  lemma FieldOf(s: string, i: nat, name: string, c: nat, x: Json, j: nat, sp: Spelling)
    requires ReadName(s, i, sp) == Ok(name, c) && c + 1 < |s| && s[c] == ':' && !IsSpace(s[c + 1])
    requires ReadValue(s, c + 1, sp) == Ok(x, j)
    ensures ReadField(s, i, sp) == Ok(Field(name, x), j)
  {
  }

  lemma {:induction false} FieldRead(s: string, i: nat, v: Json, name: string, tail: string, sp: Spelling)
    requires Faithful(sp) && v.Obj? && Valid(v, sp) && name in v.fields
    requires At(s, i, (sp.key(name) + ":") + (Print(v.fields[name], sp) + tail))
    requires tail != "" && (tail[0] == ',' || tail[0] == '}')
    ensures var j := i + |sp.key(name)| + 1 + |Print(v.fields[name], sp)|;
            ReadField(s, i, sp) == Ok(Field(name, Norm(v.fields[name], sp)), j) && At(s, j, tail)
    decreases v, 0, 0, 0
  {
    var x := v.fields[name];
    FirstChar(x, sp);
    NameRead(s, i, name, Print(x, sp) + tail, sp);
    var c := i + |sp.key(name)|;
    AtSplit(s, c + 1, Print(x, sp), tail);
    var j := c + 1 + |Print(x, sp)|;
    assert s[j + 0] == tail[0];
    ValueRead(s, c + 1, x, sp);
    FieldOf(s, i, name, c, Norm(x, sp), j, sp);
  }

  lemma {:induction false} FieldsRead(s: string, i: nat, v: Json, keys: seq<string>, k: nat, sp: Spelling)
    requires Faithful(sp) && v.Obj? && Valid(v, sp) && k < |keys| && (forall j | j in keys :: j in v.fields)
             && Increasing(keys)
    requires At(s, i, PrintFields(v, keys, k, sp))
    ensures ReadFields(s, i, Prefix(v, keys, k, sp), sp) ==
            Ok(Obj(Prefix(v, keys, |keys|, sp)), i + |PrintFields(v, keys, k, sp)|)
    decreases v, 0, |keys| - k, 1
  {
    FieldRead(s, i, v, keys[k], FieldTail(v, keys, k, sp), sp);
    var j := i + |sp.key(keys[k])| + 1 + |Print(v.fields[keys[k]], sp)|;
    FieldTailRead(s, i, v, keys, k, Field(keys[k], Norm(v.fields[keys[k]], sp)), j, sp);
  }

  lemma {:induction false} FieldTailRead(s: string, i: nat, v: Json, keys: seq<string>, k: nat, f: Field, j: nat,
                                         sp: Spelling)
    requires Faithful(sp) && v.Obj? && Valid(v, sp) && k < |keys| && (forall j | j in keys :: j in v.fields)
             && Increasing(keys)
    requires At(s, j, FieldTail(v, keys, k, sp)) && f == Field(keys[k], Norm(v.fields[keys[k]], sp))
    requires ReadField(s, i, sp) == Ok(f, j)
    ensures ReadFields(s, i, Prefix(v, keys, k, sp), sp) ==
            Ok(Obj(Prefix(v, keys, |keys|, sp)), j + |FieldTail(v, keys, k, sp)|)
    decreases v, 0, |keys| - k, 0
  {
    KeyIsNew(v, keys, k, sp);
    if k + 1 == |keys| {
      assert s[j + 0] == FieldTail(v, keys, k, sp)[0];
      LastField(s, i, Prefix(v, keys, k, sp), f, j, sp);
    } else {
      MoreFieldsRead(s, j, v, keys, k, sp);
      NextField(s, i, Prefix(v, keys, k, sp), f, j, sp);
    }
  }

  lemma {:induction false} MoreFieldsRead(s: string, j: nat, v: Json, keys: seq<string>, k: nat, sp: Spelling)
    requires Faithful(sp) && v.Obj? && Valid(v, sp) && k + 1 < |keys| && (forall j | j in keys :: j in v.fields)
             && Increasing(keys)
    requires At(s, j, FieldTail(v, keys, k, sp))
    ensures j + 1 < |s| && s[j] == ',' && !IsSpace(s[j + 1])
    ensures ReadFields(s, j + 1, Prefix(v, keys, k + 1, sp), sp) ==
            Ok(Obj(Prefix(v, keys, |keys|, sp)), j + |FieldTail(v, keys, k, sp)|)
    decreases v, 0, |keys| - k - 1, 2
  {
    AtSplit(s, j, ",", PrintFields(v, keys, k + 1, sp));
    assert s[j + 0] == ","[0];
    KeyFirst(s, j + 1, v, keys, k + 1, sp);
    FieldsRead(s, j + 1, v, keys, k + 1, sp);
  }

  lemma KeyFirst(s: string, i: nat, v: Json, keys: seq<string>, k: nat, sp: Spelling)
    requires Faithful(sp) && v.Obj? && k < |keys| && forall j | j in keys :: j in v.fields
    requires At(s, i, PrintFields(v, keys, k, sp))
    ensures i < |s| && s[i] == '\"'
  {
    var t := sp.key(keys[k]);
    assert KeyReads(sp, keys[k], t, 0);
    assert s[i + 0] == PrintFields(v, keys, k, sp)[0] == t[0];
  }

  lemma EnterObject(s: string, i: nat, sp: Spelling)
    requires i + 1 < |s| && s[i] == '{' && s[i + 1] == '\"'
    ensures ReadValue(s, i, sp) == ReadFields(s, i + 1, map[], sp)
  {
  }

  lemma {:induction false} ObjectRead(s: string, i: nat, v: Json, sp: Spelling)
    requires Faithful(sp) && v.Obj? && v.fields.Keys != {} && Valid(v, sp) && At(s, i, Print(v, sp))
    ensures ReadValue(s, i, sp) == Ok(Norm(v, sp), i + |Print(v, sp)|)
    decreases v, 0, |SortedKeys(v.fields.Keys)| + 1, 0
  {
    var keys := SortedKeys(v.fields.Keys);
    assert keys != [];
    AtSplit(s, i, "{", PrintFields(v, keys, 0, sp));
    assert s[i + 0] == "{"[0];
    KeyFirst(s, i + 1, v, keys, 0, sp);
    EnterObject(s, i, sp);
    FieldsRead(s, i + 1, v, keys, 0, sp);
    PrefixIsNorm(v, sp);
  }

  /** Decoding what was printed gives the normal form of what was printed. */
  lemma DecodePrinted(v: Json, sp: Spelling)
    requires Faithful(sp) && Valid(v, sp)
    ensures Decode(Print(v, sp), sp) == Decoded(Norm(v, sp))
  {
    var s := Print(v, sp);
    FirstChar(v, sp);
    ValueRead(s, 0, v, sp);
  }

  // ---- everything that is read is valid ----

  ghost predicate ReadsValid(sp: Spelling) {
    forall s, i: nat :: sp.read(s, i).Ok? ==> sp.valid(sp.read(s, i).value)
  }

  predicate AllValid(items: seq<Json>, sp: Spelling) {
    forall k | 0 <= k < |items| :: Valid(items[k], sp)
  }

  predicate FieldsValid(fields: map<string, Json>, sp: Spelling) {
    forall k | k in fields :: Valid(fields[k], sp)
  }

  lemma {:induction false} ValueIsValid(s: string, i: nat, sp: Spelling)
    requires ReadsValid(sp) && ReadValue(s, i, sp).Ok?
    ensures Valid(ReadValue(s, i, sp).value, sp)
    decreases |s| - i, 1
  {
    if s[i] == '[' {
      var j := Skip(s, i + 1);
      if !(j < |s| && s[j] == ']') {
        ItemsAreValid(s, j, [], sp);
      }
    } else if s[i] == '{' {
      var j := Skip(s, i + 1);
      if !(j < |s| && s[j] == '}') {
        FieldsAreValid(s, j, map[], sp);
      }
    }
  }

  lemma {:induction false} ItemsAreValid(s: string, i: nat, read: seq<Json>, sp: Spelling)
    requires ReadsValid(sp) && AllValid(read, sp) && ReadItems(s, i, read, sp).Ok?
    ensures Valid(ReadItems(s, i, read, sp).value, sp)
    decreases |s| - i, 2
  {
    ValueIsValid(s, i, sp);
    var item := ReadValue(s, i, sp);
    var j := Skip(s, item.next);
    if s[j] == ',' {
      ItemsAreValid(s, Skip(s, j + 1), read + [item.value], sp);
    }
  }

  lemma {:induction false} FieldIsValid(s: string, i: nat, sp: Spelling)
    requires ReadsValid(sp) && ReadField(s, i, sp).Ok?
    ensures Valid(ReadField(s, i, sp).value.value, sp)
    decreases |s| - i, 2
  {
    ValueIsValid(s, Skip(s, Skip(s, ReadName(s, i, sp).next) + 1), sp);
  }

  lemma {:induction false} FieldsAreValid(s: string, i: nat, read: map<string, Json>, sp: Spelling)
    requires ReadsValid(sp) && FieldsValid(read, sp) && ReadFields(s, i, read, sp).Ok?
    ensures Valid(ReadFields(s, i, read, sp).value, sp)
    decreases |s| - i, 3
  {
    FieldIsValid(s, i, sp);
    var field := ReadField(s, i, sp);
    var j := Skip(s, field.next);
    if s[j] == ',' {
      FieldsAreValid(s, Skip(s, j + 1), read[field.value.name := field.value.value], sp);
    }
  }
}
