/** The decoder that runs after the surrogate scan.  On its own it replaces a lone surrogate; after the
    scan it reads exactly what the strict reader reads. */
module LenientReader {
  import opened Decimal
  import Numbers
  import opened JsonLexemes
  import opened JsonTree
  import opened CanonicalJson
  import opened EscapedTexts
  import Scan = UnicodeEscapes

  const REPLACEMENT := 0xfffd as char

  /** The code point of an escape starting at i; a lone surrogate becomes the replacement character. */
  function LenientUnicode(s: string, i: nat): (r: Result<char>)
    ensures r.Ok? ==> i < r.next <= |s|
  {
    var h := HexAt(s, i);
    if h.NotHex? then Fail
    else if !High(h.value) && !Low(h.value) then Ok(h.value as char, i + 4)
    else if High(h.value) && i + 6 <= |s| && s[i + 4] == '\\' && s[i + 5] == 'u'
            && HexAt(s, i + 6).Hex? && Low(HexAt(s, i + 6).value) then
      Ok((0x1_0000 + 0x400 * (h.value - 0xd800) + (HexAt(s, i + 6).value - 0xdc00)) as char, i + 10)
    else Ok(REPLACEMENT, i + 4)
  }

  function LenientChar(s: string, i: nat): (r: Result<char>)
    ensures r.Ok? ==> i < r.next <= |s|
  {
    if i + 1 < |s| && s[i] == '\\' && s[i + 1] == 'u' then LenientUnicode(s, i + 2) else ReadChar(s, i)
  }

  function LenientChars(s: string, i: nat): (r: Result<string>)
    ensures r.Ok? ==> i < r.next <= |s|
    decreases |s| - i
  {
    if i < |s| && s[i] == '\"' then Ok("", i + 1)
    else if i >= |s| then Fail
    else
      var c := LenientChar(s, i);
      if c.Fail? then Fail else
        var rest := LenientChars(s, c.next);
        if rest.Fail? then Fail else Ok([c.value] + rest.value, rest.next)
  }

  function LenientString(s: string, i: nat): (r: Result<string>)
    ensures r.Ok? ==> i < r.next <= |s|
  {
    if i >= |s| || s[i] != '\"' then Fail else LenientChars(s, i + 1)
  }

  function LenientScalar(s: string, i: nat): Result<Scalar> {
    if i < |s| && s[i] == '\"' then
      var t := LenientString(s, i);
      if t.Fail? then Fail else Ok(Str(t.value), t.next)
    else ReadScalar(s, i)
  }

  const LENIENT :=
    Spelling(ValidScalar, NormScalar, SpellScalar, PrintScalar, PrintString, LenientScalar, LenientString)

  /** The source's order: the scan over the bytes, then the decoder. */
  function ScanThenDecode(s: string): Decoded {
    if Scan.Outside(Utf8(s, 0)) then Decode(s, LENIENT) else Malformed
  }

  // ---- the two readers agree as far as the scan goes ----

  /** What the strict reader accepts the lenient one reads alike, and the scan goes on behind it; what only
      the lenient one accepts the scan refuses. */
  ghost predicate Agree<T(!new)>(s: string, scan: bool, strict: Result<T>, lenient: Result<T>) {
    && (strict.Ok? ==> lenient == strict && (scan <==> Outside(s, strict.next)))
    && (strict.Fail? && lenient.Ok? ==> !scan)
  }

  lemma UnicodeAgrees(s: string, i: nat)
    requires i + 1 < |s| && s[i] == '\\' && s[i + 1] == 'u'
    ensures var strict, lenient := ReadUnicode(s, i + 2), LenientUnicode(s, i + 2);
            && (strict.Ok? ==> lenient == strict && (Inside(s, i) <==> Inside(s, strict.next)))
            && (strict.Fail? && lenient.Ok? ==> !Inside(s, i))
  {
    var h := HexAt(s, i + 2);
    if h.Hex? && High(h.value) {
      PairInText(s, i);
    }
  }

  lemma CharAgrees(s: string, i: nat)
    requires i < |s| && s[i] != '\"'
    ensures var strict, lenient := ReadChar(s, i), LenientChar(s, i);
            && (strict.Ok? ==> lenient == strict && (Inside(s, i) <==> Inside(s, strict.next)))
            && (strict.Fail? && lenient.Ok? ==> !Inside(s, i))
  {
    if i + 1 < |s| && s[i] == '\\' && s[i + 1] == 'u' {
      UnicodeAgrees(s, i);
    }
  }

  lemma {:induction false} CharsAgree(s: string, i: nat)
    ensures Agree(s, Inside(s, i), ReadChars(s, i), LenientChars(s, i))
    decreases |s| - i
  {
    if i < |s| && s[i] != '\"' {
      CharAgrees(s, i);
      var c := ReadChar(s, i);
      if c.Ok? {
        CharsAgree(s, c.next);
      }
    }
  }

  lemma StringAgrees(s: string, i: nat)
    ensures Agree(s, Outside(s, i), ReadString(s, i), LenientString(s, i))
  {
    if i < |s| && s[i] == '\"' {
      CharsAgree(s, i + 1);
    }
  }

  predicate NoQuote(s: string, i: nat, j: nat) {
    i <= j <= |s| && forall k | i <= k < j :: s[k] != '\"'
  }

  lemma {:induction false} PassPlain(s: string, i: nat, j: nat)
    requires NoQuote(s, i, j)
    ensures Outside(s, i) == Outside(s, j)
    decreases j - i
  {
    if i < j {
      PassPlain(s, i + 1, j);
    }
  }

  lemma {:induction false} PassSpace(s: string, i: nat)
    requires i <= |s|
    ensures Outside(s, i) == Outside(s, Skip(s, i))
    decreases |s| - i
  {
    if i < |s| && IsSpace(s[i]) {
      PassSpace(s, i + 1);
    }
  }

  lemma NumberIsPlain(s: string, i: nat)
    requires ReadNumber(s, i).Ok?
    ensures NoQuote(s, i, ReadNumber(s, i).next)
  {
    var j := if s[i] == '-' then i + 1 else i;
    var whole := ReadWhole(s, j);
    var fraction := ReadFraction(s, whole.next);
    WholeIsPlain(s, j);
    FractionIsPlain(s, whole.next);
    ExponentIsPlain(s, fraction.next);
  }

  lemma WholeIsPlain(s: string, i: nat)
    requires ReadWhole(s, i).Ok?
    ensures NoQuote(s, i, ReadWhole(s, i).next)
  {
    forall k | i <= k < ReadWhole(s, i).next ensures s[k] != '\"' {
      assert IsDigit(s[k]);
    }
  }

  lemma FractionIsPlain(s: string, i: nat)
    requires i <= |s| && ReadFraction(s, i).Ok?
    ensures NoQuote(s, i, ReadFraction(s, i).next)
  {
    forall k | i <= k < ReadFraction(s, i).next ensures s[k] != '\"' {
      assert k == i || IsDigit(s[k]);
    }
  }

  lemma ExponentIsPlain(s: string, i: nat)
    requires i <= |s| && ReadExponent(s, i).Ok?
    ensures NoQuote(s, i, ReadExponent(s, i).next)
  {
    forall k | i <= k < ReadExponent(s, i).next ensures s[k] != '\"' {
      assert k == i || (k == i + 1 && (s[k] == '+' || s[k] == '-')) || IsDigit(s[k]);
    }
  }

  lemma WordIsPlain(s: string, i: nat, word: string, x: Scalar)
    requires ReadWord(s, i, word, x).Ok? && word in ["null", "true", "false"]
    ensures NoQuote(s, i, ReadWord(s, i, word, x).next)
  {
    forall k | i <= k < i + |word| ensures s[k] != '\"' {
      assert s[i + (k - i)] == word[k - i];
    }
  }

  lemma ScalarAgrees(s: string, i: nat)
    ensures Agree(s, Outside(s, i), ReadScalar(s, i), LenientScalar(s, i))
  {
    if i < |s| {
      var r := ReadScalar(s, i);
      if s[i] == '\"' {
        StringAgrees(s, i);
      } else if r.Ok? {
        if s[i] == 'n' {
          WordIsPlain(s, i, "null", Null);
        } else if s[i] == 't' {
          WordIsPlain(s, i, "true", Bool(true));
        } else if s[i] == 'f' {
          WordIsPlain(s, i, "false", Bool(false));
        } else {
          NumberIsPlain(s, i);
        }
        PassPlain(s, i, r.next);
      }
    }
  }

  ghost predicate LeafAlike(s: string, i: nat, sp: Spelling, sq: Spelling) {
    Agree(s, Outside(s, i), ReadLeaf(s, i, sp), ReadLeaf(s, i, sq))
  }

  ghost predicate NameAlike(s: string, i: nat, sp: Spelling, sq: Spelling) {
    Agree(s, Outside(s, i), ReadName(s, i, sp), ReadName(s, i, sq))
  }

  /** Two spellings whose leaves and names are read alike as far as the scan goes. */
  ghost predicate Alike(sp: Spelling, sq: Spelling) {
    (forall s, i :: LeafAlike(s, i, sp, sq)) && (forall s, i :: NameAlike(s, i, sp, sq))
  }

  lemma ReadersAlike()
    ensures Alike(JSON, LENIENT)
  {
    forall s, i ensures LeafAlike(s, i, JSON, LENIENT) {
      ScalarAgrees(s, i);
    }
    forall s, i ensures NameAlike(s, i, JSON, LENIENT) {
      StringAgrees(s, i);
    }
  }

  // ---- values ----

  /** The scan passes over space, one separator and space again. */
  lemma PassSeparator(s: string, i: nat)
    requires i <= |s| && Skip(s, i) < |s| && s[Skip(s, i)] != '\"'
    ensures Outside(s, i) == Outside(s, Skip(s, Skip(s, i) + 1)) == Outside(s, Skip(s, i) + 1)
  {
    PassSpace(s, i);
    PassSpace(s, Skip(s, i) + 1);
  }

  /** What follows an item that was read. */
  lemma ItemsFrom(s: string, i: nat, read: seq<Json>, x: Json, next: nat, sp: Spelling)
    requires ReadValue(s, i, sp) == Ok(x, next)
    ensures var j := Skip(s, next);
            ReadItems(s, i, read, sp) ==
              if j == |s| then Fail else if s[j] == ']' then Ok(Arr(read + [x]), j + 1)
              else if s[j] == ',' then ReadItems(s, Skip(s, j + 1), read + [x], sp) else Fail
  {
  }

  function FieldOf(name: string, item: Result<Json>): Result<Field> {
    if item.Fail? then Fail else Ok(Field(name, item.value), item.next)
  }

  /** What follows a name that was read. */
  lemma FieldFrom(s: string, i: nat, name: string, next: nat, sp: Spelling)
    requires ReadName(s, i, sp) == Ok(name, next)
    ensures var c := Skip(s, next);
            ReadField(s, i, sp) ==
              if c == |s| || s[c] != ':' then Fail else FieldOf(name, ReadValue(s, Skip(s, c + 1), sp))
  {
  }

  /** What follows a field that was read. */
  lemma FieldsFrom(s: string, i: nat, read: map<string, Json>, f: Field, next: nat, sp: Spelling)
    requires ReadField(s, i, sp) == Ok(f, next) && f.name !in read
    ensures var j := Skip(s, next); var fields := read[f.name := f.value];
            ReadFields(s, i, read, sp) ==
              if j == |s| then Fail else if s[j] == '}' then Ok(Obj(fields), j + 1)
              else if s[j] == ',' then ReadFields(s, Skip(s, j + 1), fields, sp) else Fail
  {
  }

  /** Nothing follows what could not be read. */
  lemma Stops(s: string, i: nat, items: seq<Json>, fields: map<string, Json>, sp: Spelling)
    ensures ReadValue(s, i, sp).Fail? ==> ReadItems(s, i, items, sp).Fail?
    ensures ReadName(s, i, sp).Fail? ==> ReadField(s, i, sp).Fail?
    ensures ReadField(s, i, sp).Fail? || ReadField(s, i, sp).value.name in fields ==> ReadFields(s, i, fields, sp).Fail?
  {
  }

  lemma FieldJoins(s: string, scan: bool, name: string, strict: Result<Json>, lenient: Result<Json>)
    requires Agree(s, scan, strict, lenient)
    ensures Agree(s, scan, FieldOf(name, strict), FieldOf(name, lenient))
  {
  }

  lemma {:induction false} ValueAgrees(s: string, i: nat, sp: Spelling, sq: Spelling)
    requires Alike(sp, sq)
    ensures Agree(s, Outside(s, i), ReadValue(s, i, sp), ReadValue(s, i, sq))
    decreases |s| - i, 1
  {
    if i < |s| && (s[i] == '[' || s[i] == '{') {
      var j := Skip(s, i + 1);
      PassSpace(s, i + 1);
      if s[i] == '[' && !(j < |s| && s[j] == ']') {
        ItemsAgree(s, j, [], sp, sq);
      } else if s[i] == '{' && !(j < |s| && s[j] == '}') {
        FieldsAgree(s, j, map[], sp, sq);
      }
    } else {
      assert LeafAlike(s, i, sp, sq);
    }
  }

  /** Both readers after an item they read alike, if they agree on what follows a comma. */
  lemma ItemsJoin(s: string, i: nat, read: seq<Json>, x: Json, next: nat, scan: bool, sp: Spelling, sq: Spelling)
    requires ReadValue(s, i, sp) == Ok(x, next) && ReadValue(s, i, sq) == Ok(x, next)
    requires var j := Skip(s, next);
             && (j < |s| && s[j] == ']' ==> scan == Outside(s, j + 1))
             && (j < |s| && s[j] == ',' ==>
                   var p, items := Skip(s, j + 1), read + [x];
                   Agree(s, scan, ReadItems(s, p, items, sp), ReadItems(s, p, items, sq)))
    ensures Agree(s, scan, ReadItems(s, i, read, sp), ReadItems(s, i, read, sq))
  {
    ItemsFrom(s, i, read, x, next, sp);
    ItemsFrom(s, i, read, x, next, sq);
  }

  lemma ItemsStop(s: string, i: nat, read: seq<Json>, scan: bool, sp: Spelling, sq: Spelling)
    requires Agree(s, scan, ReadValue(s, i, sp), ReadValue(s, i, sq)) && ReadValue(s, i, sp).Fail?
    ensures Agree(s, scan, ReadItems(s, i, read, sp), ReadItems(s, i, read, sq))
  {
    Stops(s, i, read, map[], sp);
    Stops(s, i, read, map[], sq);
  }

  lemma {:induction false} ItemsAgree(s: string, i: nat, read: seq<Json>, sp: Spelling, sq: Spelling)
    requires Alike(sp, sq)
    ensures Agree(s, Outside(s, i), ReadItems(s, i, read, sp), ReadItems(s, i, read, sq))
    decreases |s| - i, 2
  {
    ValueAgrees(s, i, sp, sq);
    var item := ReadValue(s, i, sp);
    if item.Fail? {
      ItemsStop(s, i, read, Outside(s, i), sp, sq);
    } else {
      var j := Skip(s, item.next);
      if j < |s| && (s[j] == ',' || s[j] == ']') {
        PassSeparator(s, item.next);
      }
      if j < |s| && s[j] == ',' {
        ItemsAgree(s, Skip(s, j + 1), read + [item.value], sp, sq);
      }
      ItemsJoin(s, i, read, item.value, item.next, Outside(s, i), sp, sq);
    }
  }

  lemma {:induction false} FieldAgrees(s: string, i: nat, sp: Spelling, sq: Spelling)
    requires Alike(sp, sq)
    ensures Agree(s, Outside(s, i), ReadField(s, i, sp), ReadField(s, i, sq))
    decreases |s| - i, 2
  {
    assert NameAlike(s, i, sp, sq);
    var key := ReadName(s, i, sp);
    if key.Fail? {
      Stops(s, i, [], map[], sp);
      Stops(s, i, [], map[], sq);
    } else {
      FieldFrom(s, i, key.value, key.next, sp);
      FieldFrom(s, i, key.value, key.next, sq);
      var c := Skip(s, key.next);
      if c < |s| && s[c] == ':' {
        PassSeparator(s, key.next);
        var p := Skip(s, c + 1);
        ValueAgrees(s, p, sp, sq);
        FieldJoins(s, Outside(s, p), key.value, ReadValue(s, p, sp), ReadValue(s, p, sq));
      }
    }
  }

  /** Both readers after a field they read alike, if they agree on what follows a comma. */
  lemma FieldsJoin(s: string, i: nat, read: map<string, Json>, f: Field, next: nat, scan: bool, sp: Spelling,
                   sq: Spelling)
    requires ReadField(s, i, sp) == Ok(f, next) && ReadField(s, i, sq) == Ok(f, next) && f.name !in read
    requires var j := Skip(s, next); var fields := read[f.name := f.value];
             && (j < |s| && s[j] == '}' ==> scan == Outside(s, j + 1))
             && (j < |s| && s[j] == ',' ==>
                   var p := Skip(s, j + 1); Agree(s, scan, ReadFields(s, p, fields, sp), ReadFields(s, p, fields, sq)))
    ensures Agree(s, scan, ReadFields(s, i, read, sp), ReadFields(s, i, read, sq))
  {
    FieldsFrom(s, i, read, f, next, sp);
    FieldsFrom(s, i, read, f, next, sq);
  }

  lemma FieldsStop(s: string, i: nat, read: map<string, Json>, scan: bool, sp: Spelling, sq: Spelling)
    requires Agree(s, scan, ReadField(s, i, sp), ReadField(s, i, sq))
    requires ReadField(s, i, sp).Fail? || ReadField(s, i, sp).value.name in read
    ensures Agree(s, scan, ReadFields(s, i, read, sp), ReadFields(s, i, read, sq))
  {
    Stops(s, i, [], read, sp);
    Stops(s, i, [], read, sq);
  }

  lemma {:induction false} FieldsAgree(s: string, i: nat, read: map<string, Json>, sp: Spelling, sq: Spelling)
    requires Alike(sp, sq)
    ensures Agree(s, Outside(s, i), ReadFields(s, i, read, sp), ReadFields(s, i, read, sq))
    decreases |s| - i, 3
  {
    FieldAgrees(s, i, sp, sq);
    var field := ReadField(s, i, sp);
    if field.Fail? || field.value.name in read {
      FieldsStop(s, i, read, Outside(s, i), sp, sq);
    } else {
      var j := Skip(s, field.next);
      if j < |s| && (s[j] == ',' || s[j] == '}') {
        PassSeparator(s, field.next);
      }
      if j < |s| && s[j] == ',' {
        FieldsAgree(s, Skip(s, j + 1), read[field.value.name := field.value.value], sp, sq);
      }
      FieldsJoin(s, i, read, field.value, field.next, Outside(s, i), sp, sq);
    }
  }

  /** On every text the scan followed by the lenient decoder is the strict reader. */
  lemma ScanThenDecodeIsStrict(s: string)
    ensures ScanThenDecode(s) == Decode(s, JSON)
  {
    OutsideAlike(s, 0);
    var i := Skip(s, 0);
    PassSpace(s, 0);
    ReadersAlike();
    ValueAgrees(s, i, JSON, LENIENT);
    var v := ReadValue(s, i, JSON);
    if v.Ok? {
      PassSpace(s, v.next);
    }
  }
}
