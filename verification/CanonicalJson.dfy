/** The canonical spelling of JSON values: what two values share when they print alike. */
module CanonicalJson {
  import opened Decimal
  import opened Numbers
  import opened JsonLexemes
  import opened JsonTree

  predicate ValidScalar(x: Scalar) {
    x.Num? ==> WellFormed(x.number)
  }

  function NormScalar(x: Scalar): Scalar {
    if x.Num? && WellFormed(x.number) then Num(Canon(x.number)) else x
  }

  function SpellScalar(x: Scalar): string {
    match x
    case Null => "null"
    case Bool(b) => if b then "true" else "false"
    case Str(text) => PrintString(text)
    case Num(n) => Spell(n)
  }

  /** The leaves of appendCanonicalValue. */
  function PrintScalar(x: Scalar): string {
    match x
    case Null => "null"
    case Bool(b) => if b then "true" else "false"
    case Str(text) => PrintString(text)
    case Num(n) => CanonicalNumber(Spell(n))
  }

  function ReadWord(s: string, i: nat, word: string, x: Scalar): Result<Scalar> {
    if At(s, i, word) then Ok(x, i + |word|) else Fail
  }

  function ReadScalar(s: string, i: nat): Result<Scalar> {
    if i >= |s| then Fail
    else if s[i] == 'n' then ReadWord(s, i, "null", Null)
    else if s[i] == 't' then ReadWord(s, i, "true", Bool(true))
    else if s[i] == 'f' then ReadWord(s, i, "false", Bool(false))
    else if s[i] == '\"' then
      var t := ReadString(s, i);
      if t.Fail? then Fail else Ok(Str(t.value), t.next)
    else
      var n := ReadNumber(s, i);
      if n.Fail? then Fail else Ok(Num(n.value), n.next)
  }

  const JSON := Spelling(ValidScalar, NormScalar, SpellScalar, PrintScalar, PrintString, ReadScalar, ReadString)

  /** The canonical form of a number text. */
  function Canon(n: NumberText): NumberText
    requires WellFormed(n)
  {
    DecomposeKeepsValue(n);
    TextOf(Decompose(Spell(n)))
  }

  lemma CanonFacts(n: NumberText)
    requires WellFormed(n)
    ensures WellFormed(Canon(n)) && Value(Canon(n)) == Value(n) && CanonicalNumber(Spell(n)) == Spell(Canon(n))
  {
    DecomposeKeepsValue(n);
    var d := Decompose(Spell(n));
    TextWellFormed(d);
    TextSpelled(d);
    TextDecomposes(d);
  }

  lemma CanonUnique(m: NumberText, n: NumberText)
    requires WellFormed(m) && WellFormed(n)
    ensures Canon(m) == Canon(n) <==> Value(m) == Value(n)
  {
    DecomposeKeepsValue(m);
    DecomposeKeepsValue(n);
    CanonFacts(m);
    CanonFacts(n);
    if Value(m) == Value(n) {
      NormalUnique(Decompose(Spell(m)), Decompose(Spell(n)));
    }
  }

  // ---- the spelling is faithful ----

  lemma SpelledNumberReads(s: string, i: nat, n: NumberText)
    requires WellFormed(n) && At(s, i, Spell(n)) && Ends(s, i + |Spell(n)|)
    ensures Spell(n) != "" && StartsLeaf(Spell(n)[0]) && ReadScalar(s, i) == Ok(Num(n), i + |Spell(n)|)
  {
    NumberRead(s, i, n);
    assert s[i + 0] == Spell(n)[0];
  }

  lemma OtherReads(s: string, i: nat, x: Scalar)
    requires !x.Num? && At(s, i, SpellScalar(x))
    ensures var t := SpellScalar(x); t != "" && StartsLeaf(t[0]) && ReadScalar(s, i) == Ok(x, i + |t|)
  {
    assert s[i + 0] == SpellScalar(x)[0];
    if x.Str? {
      StringRead(s, i, x.text);
    }
  }

  lemma JsonLeafPrints(x: Scalar)
    ensures LeafPrints(JSON, x)
  {
    if x.Num? && WellFormed(x.number) {
      CanonFacts(x.number);
    }
  }

  lemma JsonLeafReads(x: Scalar, s: string, i: nat)
    ensures LeafReads(JSON, x, s, i)
  {
    var t := SpellScalar(x);
    if ValidScalar(x) && At(s, i, t) && Ends(s, i + |t|) {
      if x.Num? {
        SpelledNumberReads(s, i, x.number);
      } else {
        OtherReads(s, i, x);
      }
    }
  }

  lemma JsonKeyReads(k: string, s: string, i: nat)
    ensures KeyReads(JSON, k, s, i)
  {
    if At(s, i, PrintString(k)) {
      StringRead(s, i, k);
    }
  }

  lemma JsonIsFaithful()
    ensures Faithful(JSON)
  {
    forall x ensures LeafPrints(JSON, x) {
      JsonLeafPrints(x);
    }
    forall x, s, i: nat ensures LeafReads(JSON, x, s, i) {
      JsonLeafReads(x, s, i);
    }
    forall k, s, i: nat ensures KeyReads(JSON, k, s, i) {
      JsonKeyReads(k, s, i);
    }
  }

  lemma JsonReadsValid()
    ensures ReadsValid(JSON)
  {
    forall s, i: nat ensures JSON.read(s, i).Ok? ==> JSON.valid(JSON.read(s, i).value) {
      assert ReadScalar(s, i).Ok? ==> ValidScalar(ReadScalar(s, i).value);
    }
  }

  // ---- equality up to the spelling of numbers ----

  predicate SameScalar(x: Scalar, y: Scalar)
    requires ValidScalar(x) && ValidScalar(y)
  {
    if x.Num? && y.Num? then Value(x.number) == Value(y.number) else x == y
  }

  /** Equality with numbers compared as exact decimals. */
  predicate Same(a: Json, b: Json)
    requires Valid(a, JSON) && Valid(b, JSON)
  {
    match a
    case Leaf(x) => b.Leaf? && SameScalar(x, b.scalar)
    case Arr(items) => b.Arr? && |items| == |b.items| && forall i | 0 <= i < |items| :: Same(items[i], b.items[i])
    case Obj(fields) => b.Obj? && fields.Keys == b.fields.Keys && forall k | k in fields :: Same(fields[k], b.fields[k])
  }

  lemma SameScalarIffNorm(x: Scalar, y: Scalar)
    requires ValidScalar(x) && ValidScalar(y)
    ensures SameScalar(x, y) <==> NormScalar(x) == NormScalar(y)
  {
    if x.Num? && y.Num? {
      CanonUnique(x.number, y.number);
    }
  }

  lemma {:induction false} SameIffNorm(a: Json, b: Json)
    requires Valid(a, JSON) && Valid(b, JSON)
    ensures Same(a, b) <==> Norm(a, JSON) == Norm(b, JSON)
    decreases a, 1
  {
    match a
    case Leaf(x) =>
      if b.Leaf? {
        SameScalarIffNorm(x, b.scalar);
      }
    case Arr(items) =>
      if b.Arr? && |items| == |b.items| {
        SameItems(a, b);
      } else if b.Arr? {
        assert |Norm(a, JSON).items| == |items| && |Norm(b, JSON).items| == |b.items|;
      }
    case Obj(fields) =>
      if b.Obj? && fields.Keys == b.fields.Keys {
        SameFields(a, b);
      } else if b.Obj? {
        assert Norm(a, JSON).fields.Keys == fields.Keys && Norm(b, JSON).fields.Keys == b.fields.Keys;
      }
  }

  lemma {:induction false} SameItems(a: Json, b: Json)
    requires Valid(a, JSON) && Valid(b, JSON) && a.Arr? && b.Arr? && |a.items| == |b.items|
    ensures Same(a, b) <==> Norm(a, JSON) == Norm(b, JSON)
    decreases a, 0
  {
    forall i | 0 <= i < |a.items|
      ensures Same(a.items[i], b.items[i]) <==> Norm(a.items[i], JSON) == Norm(b.items[i], JSON)
    {
      SameIffNorm(a.items[i], b.items[i]);
    }
    var x, y := Norm(a, JSON).items, Norm(b, JSON).items;
    assert |x| == |y| == |a.items|;
    assert forall i | 0 <= i < |x| :: x[i] == Norm(a.items[i], JSON) && y[i] == Norm(b.items[i], JSON);
    if Same(a, b) {
      assert x == y;
    } else {
      var i :| 0 <= i < |x| && !Same(a.items[i], b.items[i]);
      assert x[i] != y[i];
    }
  }

  lemma {:induction false} SameFields(a: Json, b: Json)
    requires Valid(a, JSON) && Valid(b, JSON) && a.Obj? && b.Obj? && a.fields.Keys == b.fields.Keys
    ensures Same(a, b) <==> Norm(a, JSON) == Norm(b, JSON)
    decreases a, 0
  {
    forall k | k in a.fields
      ensures Same(a.fields[k], b.fields[k]) <==> Norm(a.fields[k], JSON) == Norm(b.fields[k], JSON) {
      SameIffNorm(a.fields[k], b.fields[k]);
    }
    var x, y := Norm(a, JSON).fields, Norm(b, JSON).fields;
    assert x.Keys == a.fields.Keys == y.Keys;
    if Same(a, b) {
      assert forall k | k in x :: x[k] == y[k];
      assert x == y;
    } else {
      var k :| k in a.fields && !Same(a.fields[k], b.fields[k]);
      assert x[k] != y[k];
    }
  }

  // ---- printing forgets exactly the spelling of numbers ----

  lemma NormScalarFacts(x: Scalar)
    requires ValidScalar(x)
    ensures ValidScalar(NormScalar(x)) && PrintScalar(NormScalar(x)) == PrintScalar(x)
  {
    if x.Num? {
      CanonFacts(x.number);
      SameSpellingIffSameValue(x.number, Canon(x.number));
    }
  }

  lemma {:induction false} PrintNorm(v: Json)
    requires Valid(v, JSON)
    ensures Valid(Norm(v, JSON), JSON) && Print(Norm(v, JSON), JSON) == Print(v, JSON)
    decreases v, 1, 0
  {
    match v
    case Leaf(x) => NormScalarFacts(x);
    case Arr(items) =>
      forall i | 0 <= i < |items| ensures Valid(Norm(items[i], JSON), JSON) {
        PrintNorm(items[i]);
      }
      if items != [] {
        PrintItemsNorm(v, 0);
      }
    case Obj(fields) =>
      forall k | k in fields ensures Valid(Norm(fields[k], JSON), JSON) {
        PrintNorm(fields[k]);
      }
      assert Norm(v, JSON).fields.Keys == fields.Keys;
      if SortedKeys(fields.Keys) != [] {
        PrintFieldsNorm(v, SortedKeys(fields.Keys), 0);
      }
  }

  lemma {:induction false} PrintItemsNorm(v: Json, k: nat)
    requires v.Arr? && Valid(v, JSON) && k < |v.items|
    ensures PrintItems(Norm(v, JSON), k, JSON) == PrintItems(v, k, JSON)
    decreases v, 0, |v.items| - k
  {
    PrintNorm(v.items[k]);
    assert Norm(v, JSON).items[k] == Norm(v.items[k], JSON);
    if k + 1 < |v.items| {
      PrintItemsNorm(v, k + 1);
    }
  }

  lemma {:induction false} PrintFieldsNorm(v: Json, keys: seq<string>, k: nat)
    requires v.Obj? && Valid(v, JSON) && k < |keys| && forall j | j in keys :: j in v.fields
    ensures PrintFields(Norm(v, JSON), keys, k, JSON) == PrintFields(v, keys, k, JSON)
    decreases v, 0, |keys| - k
  {
    PrintNorm(v.fields[keys[k]]);
    assert Norm(v, JSON).fields[keys[k]] == Norm(v.fields[keys[k]], JSON);
    if k + 1 < |keys| {
      PrintFieldsNorm(v, keys, k + 1);
    }
  }

  /** Two values print alike exactly when they are equal with numbers compared as exact decimals. */
  lemma PrintAlikeIffSame(a: Json, b: Json)
    requires Valid(a, JSON) && Valid(b, JSON)
    ensures Print(a, JSON) == Print(b, JSON) <==> Same(a, b)
  {
    SameIffNorm(a, b);
    PrintNorm(a);
    PrintNorm(b);
    JsonIsFaithful();
    DecodePrinted(a, JSON);
    DecodePrinted(b, JSON);
  }
}
