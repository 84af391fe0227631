/**
 The GGUF header reader (inspect.rs): a cursor over a key/value block that keeps a few
 known keys and skips every other value without interpreting it.
 */
module Gguf {
  import opened Common
  import opened Bytes

  const GGUF_MAX_KV: nat := 4096
  const GGUF_MAX_STR: nat := 64 * 1024
  const GGUF_MAX_ARRAY_BYTES: nat := 256 * 1024 * 1024
  const U32: nat := 0x1_0000_0000

  // ----- The format -----

  datatype Value =
    | Scalar(t: nat, raw: seq<Byte>)
    | Str(text: seq<Byte>)
    | StrArray(items: seq<seq<Byte>>)
    | NumArray(t: nat, count: nat, raw: seq<Byte>)

  datatype Entry = Entry(key: seq<Byte>, value: Value)

  function ScalarWidth(t: nat): Option<nat> {
    if t == 0 || t == 1 || t == 7 then Some(1)
    else if t == 2 || t == 3 then Some(2)
    else if 4 <= t <= 6 then Some(4)
    else if 10 <= t <= 12 then Some(8)
    else None
  }

  function TypeCode(v: Value): nat {
    match v
    case Scalar(t, _) => t
    case Str(_) => 8
    case _ => 9
  }

  /** The value types of the format, in the order of their codes. */
  datatype Kind = UInt8 | Int8 | UInt16 | Int16 | UInt32 | Int32 | Float32 | Bool | Text | List | UInt64 | Int64 | Float64

  const KINDS: seq<Kind> :=
    [UInt8, Int8, UInt16, Int16, UInt32, Int32, Float32, Bool, Text, List, UInt64, Int64, Float64]

  predicate IsScalar(k: Kind) { k != Text && k != List }

  function Bits(k: Kind): nat
    requires IsScalar(k)
  {
    match k
    case UInt8 | Int8 | Bool => 8
    case UInt16 | Int16 => 16
    case UInt32 | Int32 | Float32 => 32
    case UInt64 | Int64 | Float64 => 64
  }

  /** Exactly the codes of the scalar kinds have a width, and it is that of their kind. */
  lemma WidthsAreKinds(t: nat)
    ensures ScalarWidth(t).Some? <==> t < |KINDS| && IsScalar(KINDS[t])
    ensures ScalarWidth(t).Some? ==> 8 * ScalarWidth(t).value == Bits(KINDS[t])
  {
    assert t < 13 ==> t in {0, 1, 2, 3, 4, 5, 6, 7, 8, 9, 10, 11, 12};
  }

  /** A value is written under the code of its kind. */
  lemma CodesAreKinds(v: Value)
    requires IsValue(v)
    ensures TypeCode(v) < |KINDS|
    ensures KINDS[TypeCode(v)] == Text <==> v.Str?
    ensures KINDS[TypeCode(v)] == List <==> v.StrArray? || v.NumArray?
  {
    if v.Scalar? {
      WidthsAreKinds(v.t);
    }
  }

  function EncodeStr(s: seq<Byte>): seq<Byte> { LE(|s|, 8) + s }

  function EncodeStrs(items: seq<seq<Byte>>): seq<Byte> {
    if items == [] then [] else EncodeStrs(items[..|items| - 1]) + EncodeStr(items[|items| - 1])
  }

  function Encode(v: Value): seq<Byte> {
    match v
    case Scalar(_, raw) => raw
    case Str(text) => EncodeStr(text)
    case StrArray(items) => LE(8, 4) + (LE(|items|, 8) + EncodeStrs(items))
    case NumArray(t, count, raw) => LE(t, 4) + (LE(count, 8) + raw)
  }

  predicate IsStr(s: seq<Byte>) { |s| <= GGUF_MAX_STR }

  predicate IsValue(v: Value) {
    match v
    case Scalar(t, raw) => ScalarWidth(t) == Some(|raw|)
    case Str(text) => IsStr(text)
    case StrArray(items) =>
      |items| < U64_LIMIT && |EncodeStrs(items)| <= GGUF_MAX_ARRAY_BYTES
      && forall i :: 0 <= i < |items| ==> IsStr(items[i])
    case NumArray(t, count, raw) =>
      count < U64_LIMIT && ScalarWidth(t).Some? && |raw| == count * ScalarWidth(t).value <= GGUF_MAX_ARRAY_BYTES
  }

  function EncodeEntry(e: Entry): seq<Byte> {
    EncodeStr(e.key) + (LE(TypeCode(e.value), 4) + Encode(e.value))
  }

  function EncodeEntries(es: seq<Entry>): seq<Byte> {
    Flatten(Encoded(es))
  }

  function Encoded(es: seq<Entry>): (r: seq<seq<Byte>>)
    ensures |r| == |es|
  {
    seq(|es|, i requires 0 <= i < |es| => EncodeEntry(es[i]))
  }

  predicate IsEntry(e: Entry) { IsStr(e.key) && IsValue(e.value) }

  predicate AreEntries(es: seq<Entry>) { forall i :: 0 <= i < |es| ==> IsEntry(es[i]) }

  function CountWidth(version: nat): nat { if version >= 2 then 8 else 4 }

  function EncodeBlock(version: nat, tensors: nat, es: seq<Entry>): seq<Byte> {
    LE(tensors, CountWidth(version)) + (LE(|es|, CountWidth(version)) + EncodeEntries(es))
  }

  /** Counts are four bytes wide in the first version of the format and eight bytes since. */
  lemma CountsByVersion(version: nat, tensors: nat, es: seq<Entry>)
    ensures |EncodeBlock(version, tensors, es)| == |EncodeEntries(es)| + if version < 2 then 8 else 16
  {
  }

  // ----- What a reader should learn -----

  function Ascii(s: string): seq<Byte> {
    seq(|s|, i requires 0 <= i < |s| => if s[i] as int < 256 then s[i] as int else 0)
  }

  datatype Field = Name | Architecture | SizeLabel | License | Basename | Finetune | SourceUrl | FileType | Unknown

  function FieldOf(key: seq<Byte>): Field {
    if key == Ascii("general.name") then Name
    else if key == Ascii("general.architecture") then Architecture
    else if key == Ascii("general.size_label") then SizeLabel
    else if key == Ascii("general.license") then License
    else if key == Ascii("general.basename") then Basename
    else if key == Ascii("general.finetune") then Finetune
    else if key == Ascii("general.source.url") || key == Ascii("general.repo_url")
         || key == Ascii("general.source.huggingface.repository") then SourceUrl
    else if key == Ascii("general.file_type") then FileType
    else Unknown
  }

  lemma AsciiAt(s: string, t: string, i: nat)
    requires i < |s| && i < |t| && s[i] as int < 256 && t[i] as int < 256 && s[i] != t[i]
    ensures Ascii(s) != Ascii(t)
  {
    assert Ascii(s)[i] == s[i] as int && Ascii(t)[i] == t[i] as int;
  }

  /** The keys that are looked for. */
  lemma KnownKeys()
    ensures FieldOf(Ascii("general.name")) == Name && FieldOf(Ascii("general.architecture")) == Architecture
    ensures FieldOf(Ascii("general.size_label")) == SizeLabel && FieldOf(Ascii("general.license")) == License
    ensures FieldOf(Ascii("general.basename")) == Basename && FieldOf(Ascii("general.finetune")) == Finetune
  {
    AsciiAt("general.basename", "general.finetune", 8);
  }

  lemma KnownSources()
    ensures FieldOf(Ascii("general.source.url")) == SourceUrl && FieldOf(Ascii("general.repo_url")) == SourceUrl
    ensures FieldOf(Ascii("general.source.huggingface.repository")) == SourceUrl
    ensures FieldOf(Ascii("general.file_type")) == FileType
  {
    AsciiAt("general.basename", "general.repo_url", 8);
    AsciiAt("general.finetune", "general.repo_url", 8);
    AsciiAt("general.size_label", "general.source.url", 9);
  }

  /** And no other key is. */
  lemma OtherKeys(key: seq<Byte>)
    requires key != Ascii("general.name") && key != Ascii("general.architecture")
    requires key != Ascii("general.size_label") && key != Ascii("general.license")
    requires key != Ascii("general.basename") && key != Ascii("general.finetune")
    requires key != Ascii("general.source.url") && key != Ascii("general.repo_url")
    requires key != Ascii("general.source.huggingface.repository") && key != Ascii("general.file_type")
    ensures FieldOf(key) == Unknown
  {
  }

  datatype Meta = Meta(texts: map<Field, seq<Byte>>, fileType: Option<nat>)

  function Put(m: Meta, f: Field, text: Option<seq<Byte>>): Meta {
    m.(texts := if text.Some? then m.texts[f := text.value] else m.texts - {f})
  }

  /** A value as text: only a string that is not blank. */
  function TextOf(v: Value, blank: seq<Byte> -> bool): Option<seq<Byte>> {
    if v.Str? && !blank(v.text) then Some(v.text) else None
  }

  /** A value as a number: 32-bit as is, 64-bit truncated. */
  function NumberOf(v: Value): Option<nat> {
    if v.Scalar? && (v.t == 4 || v.t == 5 || v.t == 10 || v.t == 11) then Some(FromLE(v.raw) % U32) else None
  }

  /** Which keys are known, and which texts count as blank. */
  datatype Rules = Rules(field: seq<Byte> -> Field, blank: seq<Byte> -> bool)

  /** The meaning of a key/value list, one entry at a time: later entries win, except that the
      first source URL with text stays. */
  function Learn(es: seq<Entry>, rules: Rules): Meta {
    if es == [] then Meta(map[], None)
    else LearnEntry(Learn(es[..|es| - 1], rules), es[|es| - 1], rules)
  }

  function LearnEntry(m: Meta, e: Entry, rules: Rules): Meta {
    LearnField(m, rules.field(e.key), e.value, rules.blank)
  }

  function LearnField(m: Meta, f: Field, v: Value, blank: seq<Byte> -> bool): Meta {
    if f == Unknown then m
    else if f == FileType then m.(fileType := NumberOf(v))
    else if f == SourceUrl && SourceUrl in m.texts then m
    else Put(m, f, TextOf(v, blank))
  }

  // ----- What is learnt, entry by entry -----

  predicate IsText(f: Field) { f != Unknown && f != FileType && f != SourceUrl }

  predicate Tells(e: Entry, f: Field, rules: Rules) { rules.field(e.key) == f }

  predicate HasText(v: Value, rules: Rules) { v.Str? && !rules.blank(v.text) }

  /** The last entry for a text field decides: its text, or none when it is blank or no string. */
  lemma {:induction false} LastTextWins(es: seq<Entry>, f: Field, i: nat, rules: Rules)
    requires IsText(f) && i < |es| && Tells(es[i], f, rules)
    requires forall j :: i < j < |es| ==> !Tells(es[j], f, rules)
    ensures f in Learn(es, rules).texts <==> HasText(es[i].value, rules)
    ensures f in Learn(es, rules).texts ==> Learn(es, rules).texts[f] == es[i].value.text
    decreases |es|
  {
    if i < |es| - 1 {
      LastTextWins(es[..|es| - 1], f, i, rules);
      assert !Tells(es[|es| - 1], f, rules);
    }
  }

  lemma {:induction false} LastNumberWins(es: seq<Entry>, i: nat, rules: Rules)
    requires i < |es| && Tells(es[i], FileType, rules)
    requires forall j :: i < j < |es| ==> !Tells(es[j], FileType, rules)
    ensures Learn(es, rules).fileType == NumberOf(es[i].value)
    decreases |es|
  {
    if i < |es| - 1 {
      LastNumberWins(es[..|es| - 1], i, rules);
      assert !Tells(es[|es| - 1], FileType, rules);
    }
  }

  /** The first source address that has text stays, whatever comes behind it. */
  lemma {:induction false} FirstSourceStays(es: seq<Entry>, i: nat, rules: Rules)
    requires i < |es| && Tells(es[i], SourceUrl, rules) && HasText(es[i].value, rules)
    requires forall j :: 0 <= j < i && Tells(es[j], SourceUrl, rules) ==> !HasText(es[j].value, rules)
    ensures SourceUrl in Learn(es, rules).texts && Learn(es, rules).texts[SourceUrl] == es[i].value.text
    decreases |es|
  {
    if i < |es| - 1 {
      FirstSourceStays(es[..|es| - 1], i, rules);
    } else {
      NothingSaid(es[..i], SourceUrl, rules);
    }
  }

  /** Nothing is made up: a field without an entry that says something has no text. */
  lemma {:induction false} NothingSaid(es: seq<Entry>, f: Field, rules: Rules)
    requires forall j :: 0 <= j < |es| && Tells(es[j], f, rules) ==> !HasText(es[j].value, rules)
    ensures f !in Learn(es, rules).texts
    decreases |es|
  {
    if es != [] {
      NothingSaid(es[..|es| - 1], f, rules);
      assert Tells(es[|es| - 1], f, rules) ==> !HasText(es[|es| - 1].value, rules);
    }
  }

  // ----- The reader -----

  /** `read_u32` and `read_u64`. */
  function NumAt(data: seq<Byte>, pos: nat, k: nat): Option<nat> {
    if pos + k <= |data| then Some(FromLE(data[pos..pos + k])) else None
  }

  lemma NumAtIs(data: seq<Byte>, pos: nat, n: nat, k: nat)
    requires At(data, pos, LE(n, k)) && n < Pow256(k)
    ensures NumAt(data, pos, k) == Some(n)
  {
    FromLEInverts(n, k);
  }

  method Skip(data: seq<Byte>, pos: nat, n: nat) returns (ok: bool, next: nat)
    ensures ok <==> pos + n <= |data| || n == 0
    ensures ok ==> next == pos + n
  {
    var remaining := n;
    next := pos;
    while remaining > 0
      invariant remaining + next == pos + n && 0 <= remaining <= n
      invariant n > 0 && remaining < n ==> next <= |data|
    {
      var want := Min(remaining, 8192);
      if next + want > |data| {
        return false, next;
      }
      next := next + want;
      remaining := remaining - want;
    }
    return true, next;
  }

  lemma StrAt(data: seq<Byte>, pos: nat, s: seq<Byte>)
    requires At(data, pos, EncodeStr(s)) && IsStr(s)
    ensures NumAt(data, pos, 8) == Some(|s|) && At(data, pos + 8, s)
  {
    AtSplit(data, pos, LE(|s|, 8), s);
    Powers();
    NumAtIs(data, pos, |s|, 8);
  }

  /** A length-prefixed string. If the bytes at the cursor encode `s`, that is what is read. */
  method ReadString(data: seq<Byte>, pos: nat, ghost s: seq<Byte>) returns (r: Option<seq<Byte>>, next: nat)
    ensures At(data, pos, EncodeStr(s)) && IsStr(s) ==> r == Some(s) && next == pos + |EncodeStr(s)|
  {
    if At(data, pos, EncodeStr(s)) && IsStr(s) {
      StrAt(data, pos, s);
    }
    next := pos;
    var len := NumAt(data, pos, 8);
    if len.None? {
      return None, next;
    }
    var n := Min(len.value, GGUF_MAX_STR);
    next := pos + 8;
    if next + n > |data| {
      return None, next;
    }
    return Some(data[next..next + n]), next + n;
  }

  /** Skipping a string array stops right after it. */
  method SkipStrings(data: seq<Byte>, pos: nat, count: nat, ghost items: seq<seq<Byte>>)
    returns (ok: bool, next: nat)
    ensures At(data, pos, EncodeStrs(items)) && IsValue(StrArray(items)) && count == |items| ==>
      ok && next == pos + |EncodeStrs(items)|
  {
    var read := 0;
    next := pos;
    ghost var good := At(data, pos, EncodeStrs(items)) && IsValue(StrArray(items)) && count == |items|;
    for k := 0 to count
      invariant good ==> next == pos + read && read == StrsLength(items, k)
    {
      if good {
        StrsNext(data, pos, items, k, read);
      }
      var len := NumAt(data, next, 8);
      if len.None? {
        return false, next;
      }
      var n := Min(len.value, GGUF_MAX_STR);
      var ok' ;
      ok', next := Skip(data, next + 8, n);
      if !ok' {
        return false, next;
      }
      read := read + n + 8;
      if read > GGUF_MAX_ARRAY_BYTES {
        return false, next;
      }
    }
    assert items[..|items|] == items;
    return true, next;
  }

  /** The encoded length of the first `k` items. */
  ghost function StrsLength(items: seq<seq<Byte>>, k: nat): nat { if k <= |items| then |EncodeStrs(items[..k])| else 0 }

  lemma StrsNext(data: seq<Byte>, pos: nat, items: seq<seq<Byte>>, k: nat, read: nat)
    requires At(data, pos, EncodeStrs(items)) && k < |items| && read == StrsLength(items, k)
    requires |EncodeStrs(items)| <= GGUF_MAX_ARRAY_BYTES && IsStr(items[k])
    ensures NumAt(data, pos + read, 8) == Some(|items[k]|) && pos + read + 8 + |items[k]| <= |data|
    ensures StrsLength(items, k + 1) == read + 8 + |items[k]| <= GGUF_MAX_ARRAY_BYTES && |items[k]| <= GGUF_MAX_STR
  {
    StrsPrefix(data, pos, items, k);
  }

  lemma {:induction false} StrsMonotone(items: seq<seq<Byte>>, k: nat)
    requires k <= |items|
    ensures |EncodeStrs(items[..k])| <= |EncodeStrs(items)| && EncodeStrs(items[..k]) <= EncodeStrs(items)
    decreases |items|
  {
    if k == |items| {
      assert items[..k] == items;
    } else {
      var init := items[..|items| - 1];
      StrsMonotone(init, k);
      assert init[..k] == items[..k];
    }
  }

  lemma StrsSnoc(items: seq<seq<Byte>>, k: nat)
    requires k < |items|
    ensures EncodeStrs(items[..k + 1]) == EncodeStrs(items[..k]) + EncodeStr(items[k])
  {
    assert items[..k + 1][..k] == items[..k];
  }

  lemma AtPrefix(data: seq<Byte>, pos: nat, p: seq<Byte>, s: seq<Byte>)
    requires p <= s && At(data, pos, s)
    ensures At(data, pos, p)
  {
    assert s == p + s[|p|..];
    AtSplit(data, pos, p, s[|p|..]);
  }

  /** Item `k` of an encoded string array sits right after the items before it. */
  lemma StrsPrefix(data: seq<Byte>, pos: nat, items: seq<seq<Byte>>, k: nat)
    requires At(data, pos, EncodeStrs(items)) && k < |items|
    requires |EncodeStrs(items)| <= GGUF_MAX_ARRAY_BYTES && IsStr(items[k])
    ensures var at := pos + |EncodeStrs(items[..k])|;
      NumAt(data, at, 8) == Some(|items[k]|) && At(data, at + 8, items[k])
    ensures |EncodeStrs(items[..k + 1])| == |EncodeStrs(items[..k])| + 8 + |items[k]| <= GGUF_MAX_ARRAY_BYTES
  {
    StrsItem(data, pos, items, k);
    StrAt(data, pos + |EncodeStrs(items[..k])|, items[k]);
  }

  lemma StrsItem(data: seq<Byte>, pos: nat, items: seq<seq<Byte>>, k: nat)
    requires At(data, pos, EncodeStrs(items)) && k < |items|
    ensures At(data, pos + |EncodeStrs(items[..k])|, EncodeStr(items[k]))
    ensures |EncodeStrs(items[..k + 1])| == |EncodeStrs(items[..k])| + 8 + |items[k]| <= |EncodeStrs(items)|
  {
    StrsMonotone(items, k + 1);
    StrsSnoc(items, k);
    AtMiddle(data, pos, EncodeStrs(items[..k]), EncodeStr(items[k]), EncodeStrs(items));
  }

  lemma ArrayAt(data: seq<Byte>, pos: nat, t: nat, count: nat, body: seq<Byte>)
    requires At(data, pos, LE(t, 4) + (LE(count, 8) + body)) && t < U32 && count < U64_LIMIT
    ensures NumAt(data, pos, 4) == Some(t) && NumAt(data, pos + 4, 8) == Some(count) && At(data, pos + 12, body)
  {
    Powers();
    AtSplit(data, pos, LE(t, 4), LE(count, 8) + body);
    AtSplit(data, pos + 4, LE(count, 8), body);
    NumAtIs(data, pos, t, 4);
    NumAtIs(data, pos + 4, count, 8);
  }

  /** Skipping a value advances exactly over its encoding, whatever its type. */
  method SkipValue(data: seq<Byte>, pos: nat, t: nat, ghost v: Value) returns (ok: bool, next: nat)
    ensures At(data, pos, Encode(v)) && IsValue(v) && t == TypeCode(v) ==> ok && next == pos + |Encode(v)|
  {
    next := pos;
    ghost var good := At(data, pos, Encode(v)) && IsValue(v) && t == TypeCode(v);
    if ScalarWidth(t).Some? {
      ok, next := Skip(data, pos, ScalarWidth(t).value);
      return;
    }
    if t == 8 {
      if good {
        StrAt(data, pos, v.text);
      }
      var len := NumAt(data, pos, 8);
      if len.None? {
        return false, next;
      }
      ok, next := Skip(data, pos + 8, Min(len.value, GGUF_MAX_STR));
      return;
    }
    if t == 9 {
      ok, next := SkipArray(data, pos, v);
      return;
    }
    return false, next;
  }

  method SkipArray(data: seq<Byte>, pos: nat, ghost v: Value) returns (ok: bool, next: nat)
    ensures At(data, pos, Encode(v)) && IsValue(v) && (v.StrArray? || v.NumArray?) ==>
      ok && next == pos + |Encode(v)|
  {
    next := pos;
    ghost var good := At(data, pos, Encode(v)) && IsValue(v) && (v.StrArray? || v.NumArray?);
    if good {
      if v.StrArray? {
        ArrayAt(data, pos, 8, |v.items|, EncodeStrs(v.items));
      } else {
        ArrayAt(data, pos, v.t, v.count, v.raw);
      }
    }
    var elem, count := NumAt(data, pos, 4), NumAt(data, pos + 4, 8);
    if elem.None? || count.None? {
      return false, next;
    }
    if elem.value == 8 {
      ok, next := SkipStrings(data, pos + 12, count.value, if v.StrArray? then v.items else []);
      return;
    }
    var each := ScalarWidth(elem.value);
    if each.None? || count.value * each.value > GGUF_MAX_ARRAY_BYTES {
      return false, next;
    }
    ok, next := Skip(data, pos + 12, count.value * each.value);
  }

  /** A value as text; the cursor advances over it whatever it is. */
  method ReadValueString(data: seq<Byte>, pos: nat, t: nat, blank: seq<Byte> -> bool, ghost v: Value)
    returns (r: Option<seq<Byte>>, next: nat)
    ensures At(data, pos, Encode(v)) && IsValue(v) && t == TypeCode(v) ==>
      r == TextOf(v, blank) && next == pos + |Encode(v)|
  {
    if t == 8 {
      r, next := ReadString(data, pos, if v.Str? then v.text else []);
      if r.Some? && blank(r.value) {
        r := None;
      }
    } else {
      var ok;
      ok, next := SkipValue(data, pos, t, v);
      r := None;
    }
  }

  /** A number at the cursor is read as its low 32 bits. */
  lemma NumberAt(data: seq<Byte>, pos: nat, v: Value)
    requires At(data, pos, Encode(v)) && IsValue(v)
    ensures TypeCode(v) == 4 || TypeCode(v) == 5 ==> NumAt(data, pos, 4) == NumberOf(v) && |Encode(v)| == 4
    ensures TypeCode(v) == 10 || TypeCode(v) == 11 ==>
      NumAt(data, pos, 8).Some? && NumberOf(v) == Some(NumAt(data, pos, 8).value % U32) && |Encode(v)| == 8
  {
    if v.Scalar? && |v.raw| == 4 {
      FourBytes(v.raw);
    }
  }

  lemma FourBytes(raw: seq<Byte>)
    requires |raw| == 4
    ensures FromLE(raw) % U32 == FromLE(raw)
  {
    Powers();
    LEInverts(raw);
  }

  method ReadValueU32(data: seq<Byte>, pos: nat, t: nat, ghost v: Value) returns (r: Option<nat>, next: nat)
    ensures At(data, pos, Encode(v)) && IsValue(v) && t == TypeCode(v) ==>
      r == NumberOf(v) && next == pos + |Encode(v)|
  {
    if At(data, pos, Encode(v)) && IsValue(v) && t == TypeCode(v) {
      NumberAt(data, pos, v);
    }
    if t == 4 || t == 5 {
      r, next := NumAt(data, pos, 4), pos + 4;
    } else if t == 10 || t == 11 {
      r, next := NumAt(data, pos, 8), pos + 8;
      if r.Some? {
        r := Some(r.value % U32);
      }
    } else {
      var ok;
      ok, next := SkipValue(data, pos, t, v);
      r := None;
    }
  }

  /** Key, type code and value of `e` follow each other at `pos`, `n` bytes in all. */
  ghost predicate EntryHere(data: seq<Byte>, pos: nat, e: Entry, n: nat) {
    var p := pos + |EncodeStr(e.key)|;
    IsEntry(e) && At(data, pos, EncodeStr(e.key)) && NumAt(data, p, 4) == Some(TypeCode(e.value))
    && At(data, p + 4, Encode(e.value)) && n == |EncodeStr(e.key)| + 4 + |Encode(e.value)|
  }

  lemma EntryAt(data: seq<Byte>, pos: nat, e: Entry)
    requires At(data, pos, EncodeEntry(e)) && IsEntry(e)
    ensures EntryHere(data, pos, e, |EncodeEntry(e)|)
  {
    var k, t, v := EncodeStr(e.key), LE(TypeCode(e.value), 4), Encode(e.value);
    ThreeParts(data, pos, k, t, v);
    CodeAt(data, pos + |k|, e.value);
  }

  lemma ThreeParts(data: seq<Byte>, pos: nat, a: seq<Byte>, b: seq<Byte>, c: seq<Byte>)
    requires At(data, pos, a + (b + c))
    ensures At(data, pos, a) && At(data, pos + |a|, b) && At(data, pos + |a| + |b|, c)
    ensures |a + (b + c)| == |a| + |b| + |c|
  {
    AtSplit(data, pos, a, b + c);
    AtSplit(data, pos + |a|, b, c);
  }

  lemma CodeAt(data: seq<Byte>, pos: nat, v: Value)
    requires IsValue(v) && At(data, pos, LE(TypeCode(v), 4))
    ensures NumAt(data, pos, 4) == Some(TypeCode(v))
  {
    Powers();
    NumAtIs(data, pos, TypeCode(v), 4);
  }

  /** One turn of the loop: a key, a type, and the value kept or skipped. */
  method ReadEntry(data: seq<Byte>, pos: nat, m: Meta, rules: Rules, ghost e: Entry)
    returns (r: Option<Meta>, next: nat)
    ensures At(data, pos, EncodeEntry(e)) && IsEntry(e) ==>
      r == Some(LearnEntry(m, e, rules)) && next == pos + |EncodeEntry(e)|
  {
    if At(data, pos, EncodeEntry(e)) && IsEntry(e) {
      EntryAt(data, pos, e);
    }
    r, next := ReadKeyValue(data, pos, m, rules, e, |EncodeEntry(e)|);
  }

  method ReadKeyValue(data: seq<Byte>, pos: nat, m: Meta, rules: Rules, ghost e: Entry, ghost n: nat)
    returns (r: Option<Meta>, next: nat)
    ensures EntryHere(data, pos, e, n) ==> r == Some(LearnEntry(m, e, rules)) && next == pos + n
  {
    var key;
    key, next := ReadString(data, pos, e.key);
    if key.None? {
      return None, next;
    }
    var t := NumAt(data, next, 4);
    if t.None? {
      return None, next;
    }
    r, next := ReadField(data, next + 4, t.value, m, rules.field(key.value), rules.blank, e.value);
  }

  method ReadField(
    data: seq<Byte>, pos: nat, t: nat, m: Meta, f: Field, blank: seq<Byte> -> bool, ghost v: Value)
    returns (r: Option<Meta>, next: nat)
    ensures At(data, pos, Encode(v)) && IsValue(v) && t == TypeCode(v) ==>
      r == Some(LearnField(m, f, v, blank)) && next == pos + |Encode(v)|
  {
    if f == Unknown || (f == SourceUrl && SourceUrl in m.texts) {
      var ok;
      ok, next := SkipValue(data, pos, t, v);
      r := if ok then Some(m) else None;
    } else if f == FileType {
      var n;
      n, next := ReadValueU32(data, pos, t, v);
      r := Some(m.(fileType := n));
    } else {
      var text;
      text, next := ReadValueString(data, pos, t, blank, v);
      r := Some(Put(m, f, text));
    }
  }

  /** Part `k` of a concatenation sits right after the parts before it. */
  lemma {:induction false} PartAt(data: seq<Byte>, pos: nat, parts: seq<seq<Byte>>, k: nat)
    requires k < |parts| && At(data, pos, Flatten(parts))
    ensures At(data, pos + |Flatten(parts[..k])|, parts[k])
    decreases k
  {
    AtSplit(data, pos, parts[0], Flatten(parts[1..]));
    if k > 0 {
      PartAt(data, pos + |parts[0]|, parts[1..], k - 1);
      assert parts[..k][1..] == parts[1..][..k - 1];
    }
  }

  lemma AtMiddle(data: seq<Byte>, pos: nat, a: seq<Byte>, b: seq<Byte>, s: seq<Byte>)
    requires a + b <= s && At(data, pos, s)
    ensures At(data, pos + |a|, b)
  {
    AtPrefix(data, pos, a + b, s);
    AtSplit(data, pos, a, b);
  }

  lemma BlockAt(data: seq<Byte>, pos: nat, version: nat, tensors: nat, es: seq<Entry>, w: nat)
    requires At(data, pos, EncodeBlock(version, tensors, es)) && |es| <= GGUF_MAX_KV && w == CountWidth(version)
    ensures pos + w <= |data| && NumAt(data, pos + w, w) == Some(|es|)
    ensures At(data, pos + w + w, EncodeEntries(es))
    ensures |EncodeBlock(version, tensors, es)| == w + w + |EncodeEntries(es)|
  {
    AtSplit(data, pos, LE(tensors, w), LE(|es|, w) + EncodeEntries(es));
    AtSplit(data, pos + w, LE(|es|, w), EncodeEntries(es));
    Powers();
    NumAtIs(data, pos + w, |es|, w);
  }

  /**
   The reader, after magic and version. On every well-formed block of at most 4096 entries it
   ends exactly at the block's end with the meaning of the list, whatever unknown keys and
   values lie between the known ones.
   */
  method ReadMeta(
    data: seq<Byte>, pos: nat, version: nat, blank: seq<Byte> -> bool, ghost tensors: nat, ghost es: seq<Entry>)
    returns (r: Option<Meta>, next: nat)
    ensures At(data, pos, EncodeBlock(version, tensors, es)) && AreEntries(es) && |es| <= GGUF_MAX_KV ==>
      r == Some(Learn(es, Rules(FieldOf, blank))) && next == pos + |EncodeBlock(version, tensors, es)|
  {
    var w := CountWidth(version);
    if At(data, pos, EncodeBlock(version, tensors, es)) && |es| <= GGUF_MAX_KV {
      BlockAt(data, pos, version, tensors, es, w);
    }
    next := pos;
    if NumAt(data, pos, w).None? || NumAt(data, pos + w, w).None? {
      return None, next;
    }
    var kvCount := NumAt(data, pos + w, w).value;
    r, next := ReadEntries(data, pos + w + w, Min(kvCount, GGUF_MAX_KV), Rules(FieldOf, blank), es);
  }

  method ReadEntries(data: seq<Byte>, start: nat, count: nat, rules: Rules, ghost es: seq<Entry>)
    returns (r: Option<Meta>, next: nat)
    ensures At(data, start, EncodeEntries(es)) && AreEntries(es) && count == |es| ==>
      r == Some(Learn(es, rules)) && next == start + |EncodeEntries(es)|
  {
    ghost var good := At(data, start, EncodeEntries(es)) && AreEntries(es) && count == |es|;
    next := start;
    var m := Meta(map[], None);
    for k := 0 to count
      invariant good ==> ReadSoFar(es, k, start, next, m, rules)
    {
      ghost var e := if k < |es| then es[k] else Entry([], Str([]));
      if good {
        PartHere(data, start, es, k, next);
        SoFarSnoc(es, k, start, next, m, rules);
      }
      var got;
      got, next := ReadEntry(data, next, m, rules, e);
      if got.None? {
        return None, next;
      }
      m := got.value;
    }
    assert es[..|es|] == es && Encoded(es)[..|es|] == Encoded(es);
    return Some(m), next;
  }

  ghost predicate ReadSoFar(es: seq<Entry>, k: nat, start: nat, next: nat, m: Meta, rules: Rules) {
    k <= |es| && next == start + |Flatten(Encoded(es)[..k])| && m == Learn(es[..k], rules)
  }

  /** The next entry lies at the cursor. */
  lemma PartHere(data: seq<Byte>, start: nat, es: seq<Entry>, k: nat, next: nat)
    requires At(data, start, EncodeEntries(es)) && k < |es| && next == start + |Flatten(Encoded(es)[..k])|
    ensures At(data, next, EncodeEntry(es[k]))
  {
    PartAt(data, start, Encoded(es), k);
  }

  lemma PartsSnoc(parts: seq<seq<Byte>>, k: nat)
    requires k < |parts|
    ensures |Flatten(parts[..k + 1])| == |Flatten(parts[..k])| + |parts[k]|
  {
    FlattenAppend(parts[..k], parts[k]);
    assert parts[..k + 1] == parts[..k] + [parts[k]];
  }

  lemma SoFarSnoc(es: seq<Entry>, k: nat, start: nat, next: nat, m: Meta, rules: Rules)
    requires k < |es| && ReadSoFar(es, k, start, next, m, rules)
    ensures ReadSoFar(es, k + 1, start, next + |EncodeEntry(es[k])|, LearnEntry(m, es[k], rules), rules)
  {
    PartsSnoc(Encoded(es), k);
    LearnSnoc(es, k, rules);
  }

  lemma LearnSnoc(es: seq<Entry>, k: nat, rules: Rules)
    requires k < |es|
    ensures Learn(es[..k + 1], rules) == LearnEntry(Learn(es[..k], rules), es[k], rules)
  {
    assert es[..k + 1][..k] == es[..k];
  }
}
