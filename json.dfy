/**
 * JavaScript values as they flow through the services: the JSON-shaped data
 * a request body or a tool descriptor holds, plus `undefined`. An object is
 * its ordered list of own properties, since property order is observable in
 * `JSON.stringify` and in object spread.
 */
module Json {
  import opened Wrappers
  import JsArray
  import JsString

  datatype JsValue =
    | JUndefined
    | JNull
    | JBool(b: bool)
    | JNum(n: int)
    | JStr(s: string)
    | JArr(elems: seq<JsValue>)
    | JObj(fields: seq<Field>)

  /** One own property of an object. */
  datatype Field = Field(key: string, value: JsValue)

  /** What a property read on `null` or `undefined` throws. */
  datatype JsError = TypeError(message: string)

  // ---------------------------------------------------------------------------
  // Objects as ordered property lists

  /** The object has an own property named `k`. */
  predicate HasKey(fs: seq<Field>, k: string) {
    exists i :: 0 <= i < |fs| && fs[i].key == k
  }

  /** A JavaScript object never has two own properties of the same name. */
  predicate WellFormedObject(fs: seq<Field>) {
    forall i, j :: 0 <= i < j < |fs| ==> fs[i].key != fs[j].key
  }

  /** The value of property `k`, or `None` when the object has no such property. */
  function Lookup(fs: seq<Field>, k: string): (r: Option<JsValue>)
    ensures r.Some? <==> HasKey(fs, k)
  {
    if fs == [] then None
    else if fs[0].key == k then Some(fs[0].value)
    else
      assert HasKey(fs, k) ==> HasKey(fs[1..], k) by {
        if HasKey(fs, k) {
          var i :| 0 <= i < |fs| && fs[i].key == k;
          assert fs[1..][i - 1].key == k;
        }
      }
      Lookup(fs[1..], k)
  }

  /**
   * Assigning `o[k] = v` on a plain object: an existing property keeps its
   * place and takes the new value; a new property is added last.
   */
  function Put(fs: seq<Field>, k: string, v: JsValue): seq<Field> {
    if fs == [] then [Field(k, v)]
    else if fs[0].key == k then [Field(k, v)] + fs[1..]
    else [fs[0]] + Put(fs[1..], k, v)
  }

  lemma {:induction false} PutAbsent(fs: seq<Field>, k: string, v: JsValue)
    requires !HasKey(fs, k)
    ensures Put(fs, k, v) == fs + [Field(k, v)]
  {
    if fs != [] {
      assert fs[0].key != k;
      PutAbsent(fs[1..], k, v);
    }
  }

  /** After `o[k] = v`, reading `k` gives `v`, every other property reads as before, and no property moves. */
  lemma {:induction false} PutSemantics(fs: seq<Field>, k: string, v: JsValue)
    ensures Lookup(Put(fs, k, v), k) == Some(v)
    ensures forall j :: j != k ==> Lookup(Put(fs, k, v), j) == Lookup(fs, j)
    ensures HasKey(fs, k) ==> |Put(fs, k, v)| == |fs|
    ensures !HasKey(fs, k) ==> Put(fs, k, v) == fs + [Field(k, v)]
    ensures |fs| <= |Put(fs, k, v)|
    ensures forall i :: 0 <= i < |fs| ==> Put(fs, k, v)[i].key == fs[i].key
  {
    if !HasKey(fs, k) {
      PutAbsent(fs, k, v);
      LookupAfterAbsent(fs, [Field(k, v)], k);
      forall j | j != k ensures Lookup(fs + [Field(k, v)], j) == Lookup(fs, j) {
        LookupAppendOther(fs, Field(k, v), j);
      }
    } else if fs[0].key != k {
      assert HasKey(fs[1..], k) by {
        var i :| 0 <= i < |fs| && fs[i].key == k;
        assert fs[1..][i - 1].key == k;
      }
      PutSemantics(fs[1..], k, v);
    }
  }

  lemma {:induction false} LookupAppendOther(fs: seq<Field>, f: Field, j: string)
    requires f.key != j
    ensures Lookup(fs + [f], j) == Lookup(fs, j)
  {
    if fs != [] {
      assert (fs + [f])[1..] == fs[1..] + [f];
      LookupAppendOther(fs[1..], f, j);
    }
  }

  /** `{...target, ...source}` with `target` already built: copy `source`'s properties in order. */
  function Spread(target: seq<Field>, source: seq<Field>): seq<Field>
    decreases |source|
  {
    if source == [] then target
    else Spread(Put(target, source[0].key, source[0].value), source[1..])
  }

  /**
   * `{...target, ...source}`: every property of a well-formed `source` reads its
   * `source` value, every other property keeps its `target` value, and the
   * properties of `target` keep their places.
   */
  lemma {:induction false} SpreadSemantics(target: seq<Field>, source: seq<Field>)
    requires WellFormedObject(source)
    ensures forall i :: 0 <= i < |source| ==> Lookup(Spread(target, source), source[i].key) == Some(source[i].value)
    ensures forall j :: !HasKey(source, j) ==> Lookup(Spread(target, source), j) == Lookup(target, j)
    ensures |target| <= |Spread(target, source)|
    ensures forall i :: 0 <= i < |target| ==> Spread(target, source)[i].key == target[i].key
    decreases |source|
  {
    if source != [] {
      var f, rest := source[0], source[1..];
      var t := Put(target, f.key, f.value);
      PutSemantics(target, f.key, f.value);
      assert WellFormedObject(rest) by {
        forall i, j | 0 <= i < j < |rest| ensures rest[i].key != rest[j].key {
          assert rest[i] == source[i + 1] && rest[j] == source[j + 1];
        }
      }
      SpreadSemantics(t, rest);
      assert !HasKey(rest, f.key) by {
        forall i | 0 <= i < |rest| ensures rest[i].key != f.key {
          assert rest[i] == source[i + 1];
        }
      }
      forall i | 0 <= i < |source| ensures Lookup(Spread(target, source), source[i].key) == Some(source[i].value) {
        if i > 0 {
          assert source[i] == rest[i - 1];
        }
      }
      forall j | !HasKey(source, j) ensures Lookup(Spread(target, source), j) == Lookup(target, j) {
        assert j != f.key;
      }
    }
  }

  /** The object without its property `k` (the others keep their order). */
  function RemoveKey(fs: seq<Field>, k: string): (r: seq<Field>)
    ensures !HasKey(r, k)
    ensures |r| <= |fs|
  {
    if fs == [] then []
    else if fs[0].key == k then RemoveKey(fs[1..], k)
    else [fs[0]] + RemoveKey(fs[1..], k)
  }

  lemma {:induction false} RemoveKeyAbsent(fs: seq<Field>, k: string)
    requires !HasKey(fs, k)
    ensures RemoveKey(fs, k) == fs
  {
    if fs != [] {
      assert fs[0].key != k;
      RemoveKeyAbsent(fs[1..], k);
    }
  }

  lemma {:induction false} RemoveKeyConcat(a: seq<Field>, b: seq<Field>, k: string)
    ensures RemoveKey(a + b, k) == RemoveKey(a, k) + RemoveKey(b, k)
  {
    if a == [] {
      assert a + b == b;
    } else {
      assert (a + b)[1..] == a[1..] + b;
      RemoveKeyConcat(a[1..], b, k);
    }
  }

  /** Spreading properties the target does not have simply appends them. */
  lemma {:induction false} SpreadFresh(target: seq<Field>, source: seq<Field>)
    requires WellFormedObject(source)
    requires forall i :: 0 <= i < |source| ==> !HasKey(target, source[i].key)
    ensures Spread(target, source) == target + source
    decreases |source|
  {
    if source != [] {
      var f, rest := source[0], source[1..];
      var t' := Put(target, f.key, f.value);
      PutAbsent(target, f.key, f.value);
      forall i | 0 <= i < |rest| ensures !HasKey(t', rest[i].key) {
        assert rest[i] == source[i + 1];
      }
      SpreadFresh(t', rest);
      assert t' + rest == target + source;
    }
  }

  lemma {:induction false} SpreadConcat(target: seq<Field>, a: seq<Field>, b: seq<Field>)
    ensures Spread(target, a + b) == Spread(Spread(target, a), b)
    decreases |a|
  {
    if a == [] {
      assert a + b == b;
    } else {
      assert (a + b)[1..] == a[1..] + b;
      SpreadConcat(Put(target, a[0].key, a[0].value), a[1..], b);
    }
  }

  lemma {:induction false} LookupAfterAbsent(a: seq<Field>, b: seq<Field>, k: string)
    requires !HasKey(a, k)
    ensures Lookup(a + b, k) == Lookup(b, k)
  {
    if a == [] {
      assert a + b == b;
    } else {
      assert a[0].key != k;
      assert (a + b)[1..] == a[1..] + b;
      LookupAfterAbsent(a[1..], b, k);
    }
  }

  /** Copying properties other than `k` after a lone `k` appends them. */
  lemma SpreadIntoSingleton(k: string, v: JsValue, a: seq<Field>)
    requires !HasKey(a, k) && WellFormedObject(a)
    ensures Spread([Field(k, v)], a) == [Field(k, v)] + a
  {
    forall i | 0 <= i < |a| ensures !HasKey([Field(k, v)], a[i].key) {
      assert a[i].key != k;
    }
    SpreadFresh([Field(k, v)], a);
  }

  /** Copying a property named like the leading one replaces the leading one in place. */
  lemma OverwriteLeading(k: string, v: JsValue, a: seq<Field>, f: Field, b: seq<Field>)
    requires f.key == k
    ensures Spread([Field(k, v)] + a, [f] + b) == Spread([f] + a, b)
  {
  }

  lemma SpreadAfterOverwrite(f: Field, a: seq<Field>, b: seq<Field>)
    requires !HasKey(b, f.key) && WellFormedObject(b)
    requires forall i :: 0 <= i < |b| ==> !HasKey(a, b[i].key)
    ensures Spread([f] + a, b) == [f] + a + b
  {
    forall i | 0 <= i < |b| ensures !HasKey([f] + a, b[i].key) {
      assert !HasKey(a, b[i].key);
      assert b[i].key != f.key;
    }
    SpreadFresh([f] + a, b);
  }

  /** `{k: v, ...(a + [f] + b)}` where only `f` is named `k`: `f` takes the leading place. */
  lemma SpreadOverwritesLeading(k: string, v: JsValue, a: seq<Field>, f: Field, b: seq<Field>)
    requires f.key == k && !HasKey(a, k) && !HasKey(b, k)
    requires WellFormedObject(a) && WellFormedObject(b)
    requires forall i :: 0 <= i < |b| ==> !HasKey(a, b[i].key)
    ensures Spread([Field(k, v)], a + [f] + b) == [f] + a + b
  {
    SpreadIntoSingleton(k, v, a);
    SpreadConcat([Field(k, v)], a, [f] + b);
    OverwriteLeading(k, v, a, f, b);
    SpreadAfterOverwrite(f, a, b);
    assert a + [f] + b == a + ([f] + b);
  }

  /** In `a + [f] + b` where only `f` is named `f.key`: lookup finds `f`, removal drops just `f`. */
  lemma LookupRemoveAt(a: seq<Field>, f: Field, b: seq<Field>)
    requires !HasKey(a, f.key) && !HasKey(b, f.key)
    ensures Lookup(a + [f] + b, f.key) == Some(f.value)
    ensures RemoveKey(a + [f] + b, f.key) == a + b
  {
    assert a + [f] + b == a + ([f] + b);
    LookupAfterAbsent(a, [f] + b, f.key);
    RemoveKeyConcat(a, [f] + b, f.key);
    RemoveKeyConcat([f], b, f.key);
    RemoveKeyAbsent(a, f.key);
    RemoveKeyAbsent(b, f.key);
  }

  /** A well-formed object split around its property named `f.key`. */
  lemma SplitAtKey(a: seq<Field>, f: Field, b: seq<Field>)
    requires WellFormedObject(a + [f] + b)
    ensures !HasKey(a, f.key) && !HasKey(b, f.key)
    ensures WellFormedObject(a) && WellFormedObject(b)
    ensures forall i :: 0 <= i < |b| ==> !HasKey(a, b[i].key)
  {
    var s := a + [f] + b;
    forall i | 0 <= i < |a| ensures a[i].key != f.key {
      assert a[i] == s[i] && f == s[|a|];
    }
    forall i | 0 <= i < |b| ensures b[i].key != f.key {
      assert b[i] == s[|a| + 1 + i] && f == s[|a|];
    }
    forall i, j | 0 <= i < j < |a| ensures a[i].key != a[j].key {
      assert a[i] == s[i] && a[j] == s[j];
    }
    forall i, j | 0 <= i < j < |b| ensures b[i].key != b[j].key {
      assert b[i] == s[|a| + 1 + i] && b[j] == s[|a| + 1 + j];
    }
    forall i | 0 <= i < |b| ensures !HasKey(a, b[i].key) {
      forall j | 0 <= j < |a| ensures a[j].key != b[i].key {
        assert a[j] == s[j] && b[i] == s[|a| + 1 + i];
      }
    }
  }

  lemma SpreadAtKey(k: string, v: JsValue, source: seq<Field>, p: nat)
    requires WellFormedObject(source)
    requires p < |source| && source[p].key == k
    ensures Spread([Field(k, v)], source) == [source[p]] + RemoveKey(source, k)
    ensures Lookup(source, k) == Some(source[p].value)
  {
    var a, f, b := source[..p], source[p], source[p + 1..];
    assert source == a + [f] + b;
    SplitAtKey(a, f, b);
    SpreadOverwritesLeading(k, v, a, f, b);
    LookupRemoveAt(a, f, b);
    assert [f] + a + b == [f] + (a + b);
  }

  /**
   * `{k: v, ...source}`: property `k` stays first; its value is `source`'s own
   * `k` when there is one (the spread comes later and overwrites), else `v`.
   * The rest of `source` follows in its own order.
   */
  lemma SpreadAfterLeading(k: string, v: JsValue, source: seq<Field>)
    requires WellFormedObject(source)
    ensures Spread([Field(k, v)], source) ==
            if HasKey(source, k) then [Field(k, Lookup(source, k).value)] + RemoveKey(source, k)
            else [Field(k, v)] + source
  {
    if !HasKey(source, k) {
      SpreadFresh([Field(k, v)], source);
    } else {
      var p :| 0 <= p < |source| && source[p].key == k;
      SpreadAtKey(k, v, source, p);
    }
  }

  // ---------------------------------------------------------------------------
  // Property access and string conversion

  /**
   * `v.key` for a key that names no built-in property (such as `query`):
   * reading a property of `null` or `undefined` throws a TypeError; an object
   * gives its own property or `undefined`; any other value gives `undefined`.
   */
  function GetNamedProperty(v: JsValue, key: string): (r: Result<JsValue, JsError>)
    ensures r.Err? <==> v.JNull? || v.JUndefined?
    ensures r.Ok? && r.value != JUndefined ==> v.JObj? && HasKey(v.fields, key)
    ensures v.JObj? && HasKey(v.fields, key) ==> r.Ok? && Lookup(v.fields, key) == Some(r.value)
    ensures v.JObj? && !HasKey(v.fields, key) ==> r == Ok(JUndefined)
  {
    match v
    case JUndefined => Err(TypeError("Cannot read properties of undefined"))
    case JNull => Err(TypeError("Cannot read properties of null"))
    case JObj(fs) => Ok(match Lookup(fs, key) case Some(x) => x case None => JUndefined)
    case _ => Ok(JUndefined)
  }

  /** `parts.join(sep)`. */
  function Join(parts: seq<string>, sep: string): string {
    if parts == [] then ""
    else if |parts| == 1 then parts[0]
    else parts[0] + sep + Join(parts[1..], sep)
  }

  /** `String(v)`, which a template literal `${v}` applies to what it interpolates. */
  function ToDisplayString(v: JsValue): (r: string)
    ensures v.JStr? ==> r == v.s
    decreases v
  {
    match v
    case JUndefined => "undefined"
    case JNull => "null"
    case JBool(b) => if b then "true" else "false"
    case JNum(n) => JsString.IntToDecimal(n)
    case JStr(s) => s
    case JArr(elems) =>
      // Array.prototype.join renders null and undefined elements as empty.
      Join(seq(|elems|, i requires 0 <= i < |elems| =>
                 if elems[i].JNull? || elems[i].JUndefined? then "" else ToDisplayString(elems[i])),
           ",")
    case JObj(_) => "[object Object]"
  }

  // ---------------------------------------------------------------------------
  // JSON.stringify

  function HexDigit(d: nat): char
    requires d < 16
  {
    "0123456789abcdef"[d]
  }

  /** How JSON.stringify writes one character inside a string literal. */
  function QuoteChar(c: char): string {
    if c == '"' then "\\\""
    else if c == '\\' then "\\\\"
    else if c as int == 8 then "\\b"
    else if c as int == 9 then "\\t"
    else if c as int == 10 then "\\n"
    else if c as int == 12 then "\\f"
    else if c as int == 13 then "\\r"
    else if c as int < 32 then "\\u00" + [HexDigit(c as int / 16), HexDigit(c as int % 16)]
    else [c]
  }

  function QuoteChars(s: string): string {
    if s == [] then "" else QuoteChar(s[0]) + QuoteChars(s[1..])
  }

  /** A string as a JSON string literal. */
  function Quote(s: string): string {
    "\"" + QuoteChars(s) + "\""
  }

  /**
   * `JSON.stringify(v)`: `None` stands for the `undefined` it returns for
   * `undefined`. Properties whose value is `undefined` are omitted from an
   * object; `undefined` array elements are written as `null`.
   */
  function Stringify(v: JsValue): (r: Option<string>)
    ensures r.None? <==> v.JUndefined?
    ensures v.JObj? ==> r.Some? && |r.value| >= 2 && r.value[0] == '{' && r.value[|r.value| - 1] == '}'
    ensures v.JArr? ==> r.Some? && |r.value| >= 2 && r.value[0] == '[' && r.value[|r.value| - 1] == ']'
    decreases v
  {
    match v
    case JUndefined => None
    case JNull => Some("null")
    case JBool(b) => Some(if b then "true" else "false")
    case JNum(n) => Some(JsString.IntToDecimal(n))
    case JStr(s) => Some(Quote(s))
    case JArr(elems) =>
      var parts := seq(|elems|, i requires 0 <= i < |elems| =>
                         match Stringify(elems[i]) case Some(t) => t case None => "null");
      Some("[" + Join(parts, ",") + "]")
    case JObj(fields) =>
      var present := JsArray.Filter(fields, (f: Field) => !f.value.JUndefined?);
      var parts := seq(|present|, i requires 0 <= i < |present| =>
                         assert present[i] in fields;
                         Quote(present[i].key) + ":" + Stringify(present[i].value).value);
      Some("{" + Join(parts, ",") + "}")
  }
}
