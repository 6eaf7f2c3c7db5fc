/**
 * The option-list logic of the chronic-disease picker
 * (`src/components/Form/ChronicDiseaseSelect.tsx`): the comma-separated
 * string it reads and emits, the de-duplicating merge of option lists, and
 * the state updates made when an option is created or the selection changes.
 */
module ChronicDisease {
  import opened Js
  import opened JsString

  /** An entry of the picker: the text shown (`label`) and the value stored. */
  datatype SelectOption = SelectOption(caption: string, value: string)

  /** The value of the "other (please specify)" option. */
  const OTHER: string := "อื่นๆ"

  /** The fixed list of chronic diseases offered before anything is typed. */
  const STATIC_DISEASES: seq<SelectOption> := [
    SelectOption("เบาหวาน (Diabetes Mellitus)", "เบาหวาน"),
    SelectOption("ความดันโลหิตสูง (Hypertension)", "ความดันโลหิตสูง"),
    SelectOption("ไขมันในเลือดสูง (Dyslipidemia)", "ไขมันในเลือดสูง"),
    SelectOption("โรคอ้วน (Obesity)", "โรคอ้วน"),
    SelectOption("กรดยูริกในเลือดสูง (Hyperuricemia)", "กรดยูริกสูง"),
    SelectOption("หัวใจขาดเลือด/กล้ามเนื้อหัวใจตาย (IHD/CAD)", "หัวใจขาดเลือด"),
    SelectOption("หัวใจล้มเหลว (Heart Failure)", "หัวใจล้มเหลว"),
    SelectOption("หัวใจเต้นผิดจังหวะ (Arrhythmia)", "หัวใจเต้นผิดจังหวะ"),
    SelectOption("ลิ้นหัวใจรั่ว/ตีบ (Valvular Heart Disease)", "โรคลิ้นหัวใจ"),
    SelectOption("หลอดเลือดส่วนปลายตีบ (PAD)", "หลอดเลือดส่วนปลายตีบ"),
    SelectOption("หอบหืด (Asthma)", "หอบหืด"),
    SelectOption("ถุงลมโป่งพอง (COPD)", "ถุงลมโป่งพอง"),
    SelectOption("ภูมิแพ้อากาศเรื้อรัง (Allergic Rhinitis)", "ภูมิแพ้อากาศ"),
    SelectOption("หยุดหายใจขณะหลับ (Sleep Apnea)", "หยุดหายใจขณะหลับ"),
    SelectOption("พังผืดในปอด (Pulmonary Fibrosis)", "พังผืดในปอด"),
    SelectOption("หลอดเลือดสมอง/อัมพฤกษ์/อัมพาต (Stroke)", "หลอดเลือดสมอง"),
    SelectOption("ลมชัก (Epilepsy)", "ลมชัก"),
    SelectOption("พาร์กินสัน (Parkinson's)", "พาร์กินสัน"),
    SelectOption("อัลไซเมอร์/สมองเสื่อม (Dementia)", "สมองเสื่อม"),
    SelectOption("กล้ามเนื้ออ่อนแรง (MG/ALS)", "กล้ามเนื้ออ่อนแรง"),
    SelectOption("กรดไหลย้อน (GERD)", "กรดไหลย้อน"),
    SelectOption("ลำไส้อักเสบเรื้อรัง (IBD)", "ลำไส้อักเสบเรื้อรัง"),
    SelectOption("ตับอักเสบบี เรื้อรัง (Chronic Hepatitis B)", "ตับอักเสบบี"),
    SelectOption("ตับอักเสบซี เรื้อรัง (Chronic Hepatitis C)", "ตับอักเสบซี"),
    SelectOption("ตับแข็ง (Cirrhosis)", "ตับแข็ง"),
    SelectOption("โรคไตเรื้อรัง (CKD)", "โรคไตเรื้อรัง"),
    SelectOption("โปรตีนรั่วในปัสสาวะ (Nephrotic Syndrome)", "โปรตีนรั่วในปัสสาวะ"),
    SelectOption("ข้อเข่าเสื่อม (Osteoarthritis)", "ข้อเข่าเสื่อม"),
    SelectOption("กระดูกพรุน (Osteoporosis)", "กระดูกพรุน"),
    SelectOption("เก๊าท์ (Gout)", "เก๊าท์"),
    SelectOption("รูมาตอยด์ (Rheumatoid Arthritis)", "รูมาตอยด์"),
    SelectOption("เอสแอลอี (SLE)", "เอสแอลอี"),
    SelectOption("ไทรอยด์เป็นพิษ (Hyperthyroid)", "ไทรอยด์เป็นพิษ"),
    SelectOption("ไทรอยด์ต่ำ (Hypothyroid)", "ไทรอยด์ต่ำ"),
    SelectOption("สะเก็ดเงิน (Psoriasis)", "สะเก็ดเงิน"),
    SelectOption("ซึมเศร้า (Depression)", "ซึมเศร้า"),
    SelectOption("ไบโพลาร์ (Bipolar)", "ไบโพลาร์"),
    SelectOption("วิตกกังวล/แพนิค (Anxiety/Panic)", "วิตกกังวล"),
    SelectOption("จิตเภท (Schizophrenia)", "จิตเภท"),
    SelectOption("ธาลัสซีเมีย (Thalassemia)", "ธาลัสซีเมีย"),
    SelectOption("โรคมะเร็ง (Cancer)", "มะเร็ง"),
    SelectOption("ต้อหิน (Glaucoma)", "ต้อหิน"),
    SelectOption("HIV/AIDS", "HIV"),
    SelectOption("ถุงน้ำในรังไข่หลายใบ (PCOS)", "PCOS"),
    SelectOption("เยื่อบุโพรงมดลูกเจริญผิดที่ (Endometriosis)", "เยื่อบุโพรงมดลูกเจริญผิดที่"),
    SelectOption("อื่นๆ (โปรดระบุ)", "อื่นๆ")
  ]

  /** The values of the fixed list, used only through membership (`STATIC_VALUES.has`). */
  const STATIC_VALUES: seq<string> := Values(STATIC_DISEASES)

  function Values(os: seq<SelectOption>): (vs: seq<string>)
    ensures |vs| == |os|
    ensures forall i :: 0 <= i < |os| ==> vs[i] == os[i].value
  {
    seq(|os|, i requires 0 <= i < |os| => os[i].value)
  }

  // ----- parseInitialValue and toCommaString -----

  /** `.map((item) => item.trim())`. */
  function TrimEach(parts: seq<string>): (r: seq<string>)
    ensures |r| == |parts|
    ensures forall i :: 0 <= i < |parts| ==> r[i] == Trim(parts[i])
  {
    if parts == [] then [] else [Trim(parts[0])] + TrimEach(parts[1..])
  }

  /** `.filter((item) => item.length > 0)`. */
  function DropEmpty(parts: seq<string>): (r: seq<string>)
    ensures forall i :: 0 <= i < |r| ==> r[i] != "" && r[i] in parts
  {
    if parts == [] then []
    else (if parts[0] != "" then [parts[0]] else []) + DropEmpty(parts[1..])
  }

  /** `.map((item) => ({ label: item, value: item }))`. */
  function AsOptions(values: seq<string>): (os: seq<SelectOption>)
    ensures |os| == |values|
    ensures forall i :: 0 <= i < |values| ==> os[i] == SelectOption(values[i], values[i])
  {
    if values == [] then [] else [SelectOption(values[0], values[0])] + AsOptions(values[1..])
  }

  /** A value that survives a trip through the comma string unchanged. */
  predicate WellFormedValue(v: string) {
    v != "" && ',' !in v && IsTrimmed(v)
  }

  /** The trimmed, non-empty pieces of a comma-separated string. */
  function Pieces(s: string): (vs: seq<string>)
    ensures forall i :: 0 <= i < |vs| ==> WellFormedValue(vs[i])
  {
    var parts := Split(s, ',');
    TrimmedPiecesCommaFree(parts);
    DropEmpty(TrimEach(parts))
  }

  /** Trimming comma-free pieces leaves them comma-free. */
  lemma TrimmedPiecesCommaFree(parts: seq<string>)
    requires forall k :: 0 <= k < |parts| ==> ',' !in parts[k]
    ensures forall v :: v in TrimEach(parts) ==> ',' !in v && IsTrimmed(v)
  {
    var trimmed := TrimEach(parts);
    forall v | v in trimmed
      ensures ',' !in v
    {
      var i :| 0 <= i < |trimmed| && trimmed[i] == v;
      TrimKeepsOnlyItsCharacters(parts[i]);
    }
  }

  lemma TrimKeepsOnlyItsCharacters(s: string)
    ensures forall c :: c in Trim(s) ==> c in s
  {
    var t := TrimStart(s);
    assert t == s[|s| - |t|..];
    assert Trim(s) == t[..|Trim(s)|];
  }

  /**
   * `parseInitialValue`: nothing for `undefined` or the empty string,
   * otherwise one option (label = value) per trimmed, non-empty piece.
   */
  function ParseInitialValue(value: Option<string>): (opts: seq<SelectOption>)
    ensures value.None? || value == Some("") ==> opts == []
    ensures forall i :: 0 <= i < |opts| ==> opts[i].caption == opts[i].value && WellFormedValue(opts[i].value)
  {
    if value.None? || value.value == "" then [] else AsOptions(Pieces(value.value))
  }

  /** `toCommaString`: the values joined by ", ", and "" for null or an empty list. */
  function ToCommaString(options: Option<seq<SelectOption>>): (s: string)
    ensures options.None? || options == Some([]) ==> s == ""
  {
    if options.None? || |options.value| == 0 then "" else Join(Values(options.value), ", ")
  }

  /**
   * The filter keeps each non-empty piece, in order and once, and drops each
   * empty one: it distributes over concatenation, and `DropEmptyOne` gives
   * its action on one piece.
   */
  lemma {:induction false} DropEmptyDistributes(a: seq<string>, b: seq<string>)
    ensures DropEmpty(a + b) == DropEmpty(a) + DropEmpty(b)
    decreases |a|
  {
    if a == [] {
      assert a + b == b;
    } else {
      var head := if a[0] != "" then [a[0]] else [];
      assert (a + b)[0] == a[0];
      assert (a + b)[1..] == a[1..] + b;
      calc {
        DropEmpty(a + b);
        head + DropEmpty(a[1..] + b);
        { DropEmptyDistributes(a[1..], b); }
        head + (DropEmpty(a[1..]) + DropEmpty(b));
        (head + DropEmpty(a[1..])) + DropEmpty(b);
      }
    }
  }

  lemma DropEmptyOne(x: string)
    ensures DropEmpty([x]) == (if x != "" then [x] else [])
  {
    assert [x][1..] == [];
  }

  lemma {:induction false} DropEmptyKeepsNonEmpty(parts: seq<string>)
    requires forall i :: 0 <= i < |parts| ==> parts[i] != ""
    ensures DropEmpty(parts) == parts
  {
    if parts != [] {
      DropEmptyKeepsNonEmpty(parts[1..]);
    }
  }

  /** The pieces of an emitted string: the first value, then each further value after a space. */
  lemma SplitCommaString(vs: seq<string>)
    requires |vs| >= 1
    requires forall i :: 0 <= i < |vs| ==> ',' !in vs[i]
    ensures Split(Join(vs, ", "), ',') == [vs[0]] + PrependEach(" ", vs[1..])
  {
    CommaSpace();
    SplitJoinParts(vs, ',', " ");
  }

  lemma CommaSpace()
    ensures ", " == [','] + " "
  {
  }

  /** Trimming those pieces gives the values back. */
  lemma TrimCommaPieces(vs: seq<string>)
    requires |vs| >= 1
    requires forall i :: 0 <= i < |vs| ==> IsTrimmed(vs[i])
    ensures TrimEach([vs[0]] + PrependEach(" ", vs[1..])) == vs
  {
    var rest := PrependEach(" ", vs[1..]);
    var parts := [vs[0]] + rest;
    var trimmed := TrimEach(parts);
    forall i | 0 <= i < |vs|
      ensures trimmed[i] == vs[i]
    {
      if i == 0 {
        TrimOfTrimmed(vs[0]);
      } else {
        assert parts[i] == rest[i - 1] == " " + vs[1..][i - 1];
        TrimLeadingSpace(vs[i]);
      }
    }
  }

  /** One space before a trimmed value is all that `trim` removes. */
  lemma TrimLeadingSpace(v: string)
    requires IsTrimmed(v)
    ensures Trim(" " + v) == v
  {
    var s := " " + v;
    assert s[1..] == v;
    assert TrimStart(v) == v;
    assert TrimStart(s) == v;
    assert TrimEnd(v) == v;
  }

  /**
   * Reading back an emitted string gives one option per value, in order,
   * whenever the values are non-empty, comma-free and carry no surrounding
   * whitespace. The labels are not kept: each comes back equal to its value.
   */
  lemma CommaStringRoundTrip(opts: seq<SelectOption>)
    requires forall i :: 0 <= i < |opts| ==> WellFormedValue(opts[i].value)
    ensures ParseInitialValue(Some(ToCommaString(Some(opts)))) == AsOptions(Values(opts))
  {
    if opts != [] {
      var vs := Values(opts);
      PiecesOfCommaString(vs);
    }
  }

  /** The pieces of the string joined from well-formed values are those values. */
  lemma PiecesOfCommaString(vs: seq<string>)
    requires |vs| >= 1
    requires forall i :: 0 <= i < |vs| ==> WellFormedValue(vs[i])
    ensures Join(vs, ", ") != ""
    ensures Pieces(Join(vs, ", ")) == vs
  {
    var s := Join(vs, ", ");
    SplitCommaString(vs);
    var parts := Split(s, ',');
    TrimCommaPieces(vs);
    assert TrimEach(parts) == vs;
    DropEmptyKeepsNonEmpty(vs);
    assert |s| >= |vs[0]| > 0;
  }

  /** When every label equals its value, reading back an emitted string restores the list exactly. */
  lemma CommaStringRestoresOptions(opts: seq<SelectOption>)
    requires forall i :: 0 <= i < |opts| ==> opts[i].caption == opts[i].value && WellFormedValue(opts[i].value)
    ensures ParseInitialValue(Some(ToCommaString(Some(opts)))) == opts
  {
    CommaStringRoundTrip(opts);
  }

  /** Parsing what the picker emits for a parsed list gives that list again. */
  lemma ParseIsStable(value: Option<string>)
    ensures var opts := ParseInitialValue(value);
            ParseInitialValue(Some(ToCommaString(Some(opts)))) == opts
  {
    CommaStringRestoresOptions(ParseInitialValue(value));
  }

  // ----- mergeOptions -----

  /** The index of the first option with value `v`, or `|os|` when there is none. */
  function IndexOfValue(os: seq<SelectOption>, v: string): (i: nat)
    ensures i <= |os|
    ensures i < |os| ==> os[i].value == v
    ensures forall j :: 0 <= j < i ==> os[j].value != v
    ensures i == |os| <==> v !in Values(os)
  {
    if os == [] then 0
    else if os[0].value == v then 0
    else
      var i := 1 + IndexOfValue(os[1..], v);
      assert Values(os) == [os[0].value] + Values(os[1..]);
      i
  }

  /** `map.set(opt.value, opt)` on the insertion-ordered map: replace in place, or append a new key. */
  function Put(entries: seq<SelectOption>, o: SelectOption): seq<SelectOption> {
    var i := IndexOfValue(entries, o.value);
    if i < |entries| then entries[i := o] else entries + [o]
  }

  /** `if (!map.has(opt.value)) map.set(opt.value, opt)`. */
  function PutIfAbsent(entries: seq<SelectOption>, o: SelectOption): seq<SelectOption> {
    if IndexOfValue(entries, o.value) < |entries| then entries else entries + [o]
  }

  /** `base.forEach((opt) => map.set(opt.value, opt))`, from the first option to the last. */
  function PutAll(entries: seq<SelectOption>, os: seq<SelectOption>): seq<SelectOption>
    decreases |os|
  {
    if os == [] then entries else Put(PutAll(entries, os[..|os| - 1]), os[|os| - 1])
  }

  /** The `extra.forEach` loop: add each option whose value is not yet a key. */
  function PutAllAbsent(entries: seq<SelectOption>, os: seq<SelectOption>): seq<SelectOption>
    decreases |os|
  {
    if os == [] then entries else PutIfAbsent(PutAllAbsent(entries, os[..|os| - 1]), os[|os| - 1])
  }

  /** `list.findIndex((opt) => opt.value === OTHER)`, with -1 for none. */
  function FindOther(list: seq<SelectOption>): (i: int)
    ensures -1 <= i < |list|
    ensures i >= 0 <==> OTHER in Values(list)
    ensures i >= 0 ==> list[i].value == OTHER && forall j :: 0 <= j < i ==> list[j].value != OTHER
  {
    var i := IndexOfValue(list, OTHER);
    if i < |list| then i else -1
  }

  /** The splice/unshift step: the "other" option moves to the front when it is not there already. */
  function MoveOtherFirst(list: seq<SelectOption>): (r: seq<SelectOption>)
    ensures |r| == |list|
  {
    var i := FindOther(list);
    if i > 0 then [list[i]] + (list[..i] + list[i + 1..]) else list
  }

  /** The move permutes the list, puts "other" first and keeps the rest in order. */
  lemma MoveOtherFirstFacts(list: seq<SelectOption>)
    ensures var r := MoveOtherFirst(list);
            var i := FindOther(list);
            && multiset(r) == multiset(list)
            && (i >= 0 ==> r[0] == list[i] && r[0].value == OTHER)
            && (i > 0 ==> r[1..] == list[..i] + list[i + 1..])
            && (i <= 0 ==> r == list)
  {
    var i := FindOther(list);
    if i > 0 {
      assert list == list[..i] + [list[i]] + list[i + 1..];
    }
  }

  /** `mergeOptions(base, extra)` as a value. */
  function Merged(base: seq<SelectOption>, extra: seq<SelectOption>): seq<SelectOption> {
    MoveOtherFirst(PutAllAbsent(PutAll([], base), extra))
  }

  /** `vs` followed by every value of `ws` not seen before, in order of first appearance. */
  function Extend(vs: seq<string>, ws: seq<string>): seq<string>
    decreases |ws|
  {
    if ws == [] then vs
    else
      var d := Extend(vs, ws[..|ws| - 1]);
      if ws[|ws| - 1] in d then d else d + [ws[|ws| - 1]]
  }

  /** The values in order of first appearance, each once. */
  function Dedup(ws: seq<string>): seq<string> {
    Extend([], ws)
  }

  predicate Distinct(vs: seq<string>) {
    forall i, j :: 0 <= i < j < |vs| ==> vs[i] != vs[j]
  }

  lemma {:induction false} ExtendFacts(vs: seq<string>, ws: seq<string>)
    ensures |Extend(vs, ws)| >= |vs| && Extend(vs, ws)[..|vs|] == vs
    ensures forall x :: x in Extend(vs, ws) <==> x in vs || x in ws
    ensures Distinct(vs) ==> Distinct(Extend(vs, ws))
    decreases |ws|
  {
    if ws != [] {
      var init := ws[..|ws| - 1];
      ExtendFacts(vs, init);
      assert ws == init + [ws[|ws| - 1]];
    }
  }

  lemma {:induction false} ExtendConcat(vs: seq<string>, a: seq<string>, b: seq<string>)
    ensures Extend(Extend(vs, a), b) == Extend(vs, a + b)
    decreases |b|
  {
    if b == [] {
      assert a + b == a;
    } else {
      var init := b[..|b| - 1];
      ExtendConcat(vs, a, init);
      assert (a + b)[..|a + b| - 1] == a + init;
      assert (a + b)[|a + b| - 1] == b[|b| - 1];
    }
  }

  lemma ValuesConcat(a: seq<SelectOption>, b: seq<SelectOption>)
    ensures Values(a + b) == Values(a) + Values(b)
  {
    assert forall i :: 0 <= i < |a + b| ==> Values(a + b)[i] == (Values(a) + Values(b))[i];
  }

  lemma ValuesPut(entries: seq<SelectOption>, o: SelectOption)
    ensures Values(Put(entries, o)) ==
              if o.value in Values(entries) then Values(entries) else Values(entries) + [o.value]
    ensures Values(PutIfAbsent(entries, o)) == Values(Put(entries, o))
  {
    var i := IndexOfValue(entries, o.value);
    if i < |entries| {
      assert forall j :: 0 <= j < |entries| ==> Values(entries[i := o])[j] == Values(entries)[j];
    } else {
      ValuesConcat(entries, [o]);
    }
  }

  lemma {:induction false} ValuesPutAll(entries: seq<SelectOption>, os: seq<SelectOption>)
    ensures Values(PutAll(entries, os)) == Extend(Values(entries), Values(os))
    ensures Values(PutAllAbsent(entries, os)) == Extend(Values(entries), Values(os))
    decreases |os|
  {
    if os != [] {
      var init, last := os[..|os| - 1], os[|os| - 1];
      ValuesPutAll(entries, init);
      ValuesPut(PutAll(entries, init), last);
      ValuesPut(PutAllAbsent(entries, init), last);
      var ws := Values(os);
      assert ws[..|ws| - 1] == Values(init) && ws[|ws| - 1] == last.value;
      var d := Extend(Values(entries), Values(init));
      assert Extend(Values(entries), ws) == if last.value in d then d else d + [last.value];
    }
  }

  /** Every entry of the map built from `os` is an option of `entries` or `os`. */
  lemma {:induction false} PutAllDrawsFrom(entries: seq<SelectOption>, os: seq<SelectOption>)
    ensures forall e :: e in PutAll(entries, os) ==> e in entries || e in os
    decreases |os|
  {
    if os != [] {
      var init := os[..|os| - 1];
      PutAllDrawsFrom(entries, init);
      var m := PutAll(entries, init);
      var i := IndexOfValue(m, os[|os| - 1].value);
      if i < |m| {
        assert forall e :: e in m[i := os[|os| - 1]] ==> e in m || e == os[|os| - 1];
      }
    }
  }

  /** Absent-only insertion keeps the existing entries in place and appends options of `os` with new values. */
  lemma {:induction false} PutAllAbsentAppends(entries: seq<SelectOption>, os: seq<SelectOption>)
    ensures var l := PutAllAbsent(entries, os);
            && |l| >= |entries| && l[..|entries|] == entries
            && forall j :: |entries| <= j < |l| ==> l[j] in os && l[j].value !in Values(entries)
    decreases |os|
  {
    if os != [] {
      PutAllAbsentAppends(entries, os[..|os| - 1]);
    }
  }

  /** The map built from `base`, and the list before the "other" option is moved. */
  function BasePart(base: seq<SelectOption>): seq<SelectOption> {
    PutAll([], base)
  }

  function Unmoved(base: seq<SelectOption>, extra: seq<SelectOption>): seq<SelectOption> {
    PutAllAbsent(BasePart(base), extra)
  }

  /**
   * Before the move, `mergeOptions` keeps one option per value: the values
   * of `base`, then those of `extra`, in order of first appearance.
   */
  lemma MergeValues(base: seq<SelectOption>, extra: seq<SelectOption>)
    ensures Values(BasePart(base)) == Dedup(Values(base))
    ensures Values(Unmoved(base, extra)) == Dedup(Values(base) + Values(extra))
    ensures Distinct(Values(Unmoved(base, extra)))
    ensures forall v :: v in Values(Unmoved(base, extra)) <==> v in Values(base) || v in Values(extra)
  {
    var d := BasePart(base);
    assert Values([]) == [];
    ValuesPutAll([], base);
    ValuesPutAll(d, extra);
    ExtendConcat([], Values(base), Values(extra));
    ValuesConcat(base, extra);
    ExtendFacts([], Values(base) + Values(extra));
  }

  /**
   * The list before the move starts with the map built from `base` alone,
   * whose entries are options of `base`; every entry after it is an option
   * of `extra` with a value `base` lacks. An entry of `extra` never replaces
   * one of `base`.
   */
  lemma MergeKeepsBaseAndAppendsExtra(base: seq<SelectOption>, extra: seq<SelectOption>)
    ensures |Unmoved(base, extra)| >= |BasePart(base)|
    ensures Unmoved(base, extra)[..|BasePart(base)|] == BasePart(base)
    ensures forall j :: 0 <= j < |BasePart(base)| ==> Unmoved(base, extra)[j] in base
    ensures forall j :: |BasePart(base)| <= j < |Unmoved(base, extra)| ==>
              Unmoved(base, extra)[j] in extra && Unmoved(base, extra)[j].value !in Values(base)
  {
    var d := BasePart(base);
    var l := Unmoved(base, extra);
    PutAllDrawsFrom([], base);
    PutAllAbsentAppends(d, extra);
    assert Values([]) == [];
    ValuesPutAll([], base);
    ExtendFacts([], Values(base));
    forall j | 0 <= j < |d|
      ensures l[j] in base
    {
      assert l[j] == d[j];
    }
  }

  /** After the move the list holds the same options, with "other" first whenever it is among them. */
  lemma MergedMovesOtherFirst(base: seq<SelectOption>, extra: seq<SelectOption>)
    ensures multiset(Merged(base, extra)) == multiset(Unmoved(base, extra))
    ensures OTHER in Values(base) || OTHER in Values(extra) ==> Merged(base, extra)[0].value == OTHER
  {
    MergeValues(base, extra);
    MoveOtherFirstFacts(Unmoved(base, extra));
  }

  /** `mergeOptions`: fill a map from `base`, then from `extra`, then move "other" to the front. */
  method MergeOptions(base: seq<SelectOption>, extra: seq<SelectOption>) returns (list: seq<SelectOption>)
    ensures list == Merged(base, extra)
  {
    var entries := SetEach([], base);
    entries := SetEachAbsent(entries, extra);
    list := entries;
    var otherIndex := FindOther(list);
    if otherIndex > 0 {
      var other := list[otherIndex];
      list := list[..otherIndex] + list[otherIndex + 1..];
      list := [other] + list;
    }
  }

  /** The `base.forEach` loop of `mergeOptions` on the map's entries. */
  method SetEach(entries: seq<SelectOption>, os: seq<SelectOption>) returns (r: seq<SelectOption>)
    ensures r == PutAll(entries, os)
  {
    r := entries;
    var i := 0;
    while i < |os|
      invariant 0 <= i <= |os|
      invariant r == PutAll(entries, os[..i])
    {
      var opt := os[i];
      var k := IndexOfValue(r, opt.value);
      if k < |r| {
        r := r[k := opt];
      } else {
        r := r + [opt];
      }
      assert os[..i + 1][..i] == os[..i];
      i := i + 1;
    }
    assert os[..|os|] == os;
  }

  /** The `extra.forEach` loop of `mergeOptions`: only values not yet in the map are added. */
  method SetEachAbsent(entries: seq<SelectOption>, os: seq<SelectOption>) returns (r: seq<SelectOption>)
    ensures r == PutAllAbsent(entries, os)
  {
    r := entries;
    var j := 0;
    while j < |os|
      invariant 0 <= j <= |os|
      invariant r == PutAllAbsent(entries, os[..j])
    {
      var opt := os[j];
      if IndexOfValue(r, opt.value) == |r| {
        r := r + [opt];
      }
      assert os[..j + 1][..j] == os[..j];
      j := j + 1;
    }
    assert os[..|os|] == os;
  }

  /** A list holds each of its options' values as a value of the other list. */
  lemma SameValuesWhenPermuted(a: seq<SelectOption>, b: seq<SelectOption>)
    requires multiset(a) == multiset(b)
    ensures forall v :: v in Values(a) <==> v in Values(b)
  {
    forall v | v in Values(a) ensures v in Values(b) {
      var i :| 0 <= i < |a| && Values(a)[i] == v;
      assert a[i] in multiset(b);
      var j :| 0 <= j < |b| && b[j] == a[i];
      assert Values(b)[j] == v;
    }
    forall v | v in Values(b) ensures v in Values(a) {
      var j :| 0 <= j < |b| && Values(b)[j] == v;
      assert b[j] in multiset(a);
      var i :| 0 <= i < |a| && a[i] == b[j];
      assert Values(a)[i] == v;
    }
  }

  /** Where the entry at `x` of the moved list came from, when the "other" option sat at `i`. */
  function MovedFrom(i: nat, x: nat): nat {
    if x == 0 then i else if x <= i then x - 1 else x
  }

  lemma MovedEntry(l: seq<SelectOption>, x: nat)
    requires FindOther(l) > 0 && x < |l|
    ensures MovedFrom(FindOther(l), x) < |l|
    ensures MoveOtherFirst(l)[x] == l[MovedFrom(FindOther(l), x)]
  {
    var i := FindOther(l);
    var rest := l[..i] + l[i + 1..];
    assert MoveOtherFirst(l) == [l[i]] + rest;
    if 0 < x <= i {
      assert rest[x - 1] == l[x - 1];
    } else if x > i {
      assert rest[x - 1] == l[i + 1..][x - 1 - i];
    }
  }

  /** Moving the "other" option to the front never makes two entries share a value. */
  lemma MoveOtherFirstKeepsDistinct(l: seq<SelectOption>)
    requires Distinct(Values(l))
    ensures Distinct(Values(MoveOtherFirst(l)))
  {
    MoveOtherFirstFacts(l);
    var i := FindOther(l);
    if i > 0 {
      var r := MoveOtherFirst(l);
      forall x, y | 0 <= x < y < |r|
        ensures Values(r)[x] != Values(r)[y]
      {
        MovedEntry(l, x);
        MovedEntry(l, y);
        assert Values(l)[MovedFrom(i, x)] != Values(l)[MovedFrom(i, y)];
      }
    }
  }

  /**
   * `mergeOptions` offers exactly the values of its two lists, each once,
   * with "other" at the front whenever it is among them.
   */
  lemma MergedOffersEachValueOnce(base: seq<SelectOption>, extra: seq<SelectOption>)
    ensures forall v :: v in Values(Merged(base, extra)) <==> v in Values(base) || v in Values(extra)
    ensures Distinct(Values(Merged(base, extra)))
    ensures FindOther(Merged(base, extra)) <= 0
  {
    MergeValues(base, extra);
    MergedMovesOtherFirst(base, extra);
    SameValuesWhenPermuted(Merged(base, extra), Unmoved(base, extra));
    MoveOtherFirstKeepsDistinct(Unmoved(base, extra));
    var m := Merged(base, extra);
    assert OTHER in Values(m) ==> m[0].value == OTHER;
  }

  lemma {:induction false} PutAllDistinct(l: seq<SelectOption>)
    requires Distinct(Values(l))
    ensures PutAll([], l) == l
    decreases |l|
  {
    if l != [] {
      var init := l[..|l| - 1];
      assert Values(init) == Values(l)[..|l| - 1];
      PutAllDistinct(init);
      assert l[|l| - 1].value !in Values(init);
      assert init + [l[|l| - 1]] == l;
    }
  }

  lemma {:induction false} PutAllAbsentKnown(l: seq<SelectOption>, extra: seq<SelectOption>)
    requires forall v :: v in Values(extra) ==> v in Values(l)
    ensures PutAllAbsent(l, extra) == l
    decreases |extra|
  {
    if extra != [] {
      var init := extra[..|extra| - 1];
      assert Values(init) == Values(extra)[..|extra| - 1];
      PutAllAbsentKnown(l, init);
      assert extra[|extra| - 1].value in Values(extra);
    }
  }

  /**
   * Merging into a list that `mergeOptions` produced options whose values it
   * already holds changes nothing: the list keeps its order and its entries.
   */
  lemma MergeAbsorbsKnownOptions(l: seq<SelectOption>, extra: seq<SelectOption>)
    requires Distinct(Values(l)) && FindOther(l) <= 0
    requires forall v :: v in Values(extra) ==> v in Values(l)
    ensures Merged(l, extra) == l
  {
    PutAllDistinct(l);
    PutAllAbsentKnown(l, extra);
  }

  // ----- the component's handlers -----

  /** `list.some((opt) => opt.value === "อื่นๆ")`. */
  predicate HasOther(list: seq<SelectOption>) {
    OTHER in Values(list)
  }

  /**
   * A value typed by the user: neither one of the fixed values
   * (`STATIC_VALUES`, passed as `fixedValues`) nor "other".
   */
  predicate IsCustom(fixedValues: seq<string>, v: string) {
    v !in fixedValues && v != OTHER
  }

  /** `list.some((opt) => !STATIC_VALUES.has(opt.value) && opt.value !== "อื่นๆ")`. */
  predicate HasCustom(fixedValues: seq<string>, list: seq<SelectOption>) {
    exists i :: 0 <= i < |list| && IsCustom(fixedValues, list[i].value)
  }

  /** `list.filter((opt) => opt.value !== "อื่นๆ")`. */
  function WithoutOther(list: seq<SelectOption>): (r: seq<SelectOption>)
    ensures |r| <= |list|
    ensures forall i :: 0 <= i < |r| ==> r[i].value != OTHER
  {
    if list == [] then []
    else (if list[0].value != OTHER then [list[0]] else []) + WithoutOther(list[1..])
  }

  /**
   * The filter keeps each option whose value is not "other", in order and
   * once, and drops each "other" option: it distributes over concatenation,
   * and `WithoutOtherOne` gives its action on one option.
   */
  lemma {:induction false} WithoutOtherDistributes(a: seq<SelectOption>, b: seq<SelectOption>)
    ensures WithoutOther(a + b) == WithoutOther(a) + WithoutOther(b)
    decreases |a|
  {
    if a == [] {
      assert a + b == b;
    } else {
      var head := if a[0].value != OTHER then [a[0]] else [];
      assert (a + b)[0] == a[0];
      assert (a + b)[1..] == a[1..] + b;
      calc {
        WithoutOther(a + b);
        head + WithoutOther(a[1..] + b);
        { WithoutOtherDistributes(a[1..], b); }
        head + (WithoutOther(a[1..]) + WithoutOther(b));
        (head + WithoutOther(a[1..])) + WithoutOther(b);
      }
    }
  }

  lemma WithoutOtherOne(o: SelectOption)
    ensures WithoutOther([o]) == (if o.value != OTHER then [o] else [])
  {
    assert [o][1..] == [];
  }

  /** Without an "other" option the filter returns the list itself. */
  lemma {:induction false} WithoutOtherIdentity(list: seq<SelectOption>)
    requires !HasOther(list)
    ensures WithoutOther(list) == list
    decreases |list|
  {
    if list != [] {
      assert list[0].value == Values(list)[0];
      assert Values(list[1..]) == Values(list)[1..];
      WithoutOtherIdentity(list[1..]);
    }
  }

  /** The filter keeps exactly the options whose value is not "other". */
  lemma {:induction false} WithoutOtherMembers(list: seq<SelectOption>)
    ensures forall o :: o in WithoutOther(list) <==> o in list && o.value != OTHER
  {
    if list != [] {
      WithoutOtherMembers(list[1..]);
      assert list == [list[0]] + list[1..];
    }
  }

  /** The "other" option belongs to the fixed list. */
  lemma OtherIsStatic()
    ensures OTHER in STATIC_VALUES
  {
    assert STATIC_VALUES[|STATIC_DISEASES| - 1] == OTHER;
  }

  /**
   * `filterOption`: whether a candidate is listed for the typed text. With
   * custom entry open the fixed list is hidden; a blank search lists every
   * remaining candidate, any other search those whose label or value
   * contains the trimmed text.
   */
  function FilterOption(fixedValues: seq<string>, allowCustom: bool, candidate: SelectOption, input: string): (shown: bool)
    ensures shown ==> !(allowCustom && candidate.value in fixedValues)
    ensures Trim(input) == "" ==> (shown <==> !(allowCustom && candidate.value in fixedValues))
  {
    var term := Trim(input);
    if allowCustom then
      if candidate.value in fixedValues then false
      else if term == "" then true
      else Includes(candidate.caption, term) || Includes(candidate.value, term)
    else if term == "" then true
    else Includes(candidate.caption, term) || Includes(candidate.value, term)
  }

  /** The two branches of `filterOption` differ only in hiding the fixed list. */
  lemma FilterBranchesAgree(fixedValues: seq<string>, candidate: SelectOption, input: string)
    ensures FilterOption(fixedValues, true, candidate, input) <==>
              candidate.value !in fixedValues && FilterOption(fixedValues, false, candidate, input)
  {
  }

  /** A candidate whose value is exactly the trimmed text is listed unless the fixed list is hidden and it belongs to it. */
  lemma FilterShowsExactMatch(fixedValues: seq<string>, allowCustom: bool, candidate: SelectOption, input: string)
    requires candidate.value == Trim(input)
    ensures FilterOption(fixedValues, allowCustom, candidate, input) <==> !(allowCustom && candidate.value in fixedValues)
  {
    var t := Trim(input);
    assert OccursAt(candidate.value, t, 0);
  }

  /** With custom entry open, the "other" option is never listed, whatever is typed. */
  lemma FilterHidesOtherWhenCustom(input: string)
    ensures !FilterOption(STATIC_VALUES, true, SelectOption("อื่นๆ (โปรดระบุ)", OTHER), input)
  {
    OtherIsStatic();
  }

  /** `isValidNewOption`: custom entry is open and the trimmed text is non-empty and not yet an option. */
  function IsValidNewOption(allowCustom: bool, input: string, selectOptions: seq<SelectOption>): (valid: bool)
    ensures valid ==> allowCustom && Trim(input) != ""
    ensures valid ==> forall o :: o in selectOptions ==> o.value != Trim(input)
  {
    if !allowCustom then false
    else
      var trimmed := Trim(input);
      if trimmed == "" then false
      else trimmed !in Values(selectOptions)
  }

  /** `canCreate`, which shows the confirm button under the menu. */
  function CanCreate(allowCustom: bool, options: seq<SelectOption>, inputValue: string): (can: bool)
    ensures can ==> allowCustom && Trim(inputValue) != "" && Trim(inputValue) !in Values(options)
  {
    allowCustom && |Trim(inputValue)| > 0 && Trim(inputValue) !in Values(options)
  }

  /** The confirm button is shown exactly when the picker would accept the typed text as a new option. */
  lemma CanCreateIffValidNewOption(allowCustom: bool, options: seq<SelectOption>, inputValue: string)
    ensures CanCreate(allowCustom, options, inputValue) <==> IsValidNewOption(allowCustom, inputValue, options)
  {
  }

  lemma ValuesOfAsOptions(vs: seq<string>)
    ensures Values(AsOptions(vs)) == vs
  {
  }

  /**
   * Whatever the list, the string emitted on a change reads back without
   * "other" when its values are well formed.
   */
  lemma EmittedNeverNamesOther(list: seq<SelectOption>)
    requires forall i :: 0 <= i < |list| ==> WellFormedValue(list[i].value)
    ensures !HasOther(ParseInitialValue(Some(ToCommaString(Some(WithoutOther(list))))))
  {
    var w := WithoutOther(list);
    WithoutOtherWellFormed(list);
    CommaStringRoundTrip(w);
    ValuesOfAsOptions(Values(w));
    assert OTHER !in Values(w);
  }

  /**
   * The premise of `EmittedNeverNamesOther` matters: `addCustomOption`
   * accepts a custom value that holds a comma, such as "x, อื่นๆ", and the
   * string it emits reads back as two options, the second of them "other".
   */
  lemma CommaInCustomValueReadsBackAsOther(p: Picker, x: string)
    requires WellFormedValue(x)
    requires p.selected == [] && x + ", " + OTHER !in Values(p.options)
    ensures var out := AddCustom(p, x + ", " + OTHER);
            && out.emitted == Some(x + ", " + OTHER)
            && ParseInitialValue(out.emitted) == [SelectOption(x, x), SelectOption(OTHER, OTHER)]
            && HasOther(ParseInitialValue(out.emitted))
  {
    var typed := x + ", " + OTHER;
    assert typed[0] == x[0] && typed[|typed| - 1] == OTHER[|OTHER| - 1];
    TrimOfTrimmed(typed);
    assert WithoutOther(p.selected) + [SelectOption(typed, typed)] == [SelectOption(typed, typed)];
    assert Values([SelectOption(typed, typed)]) == [typed];
    ReadsBackWithOther(x);
  }

  /** A value followed by ", อื่นๆ" reads back as that value and "other". */
  lemma ReadsBackWithOther(x: string)
    requires WellFormedValue(x)
    ensures ParseInitialValue(Some(x + ", " + OTHER)) == [SelectOption(x, x), SelectOption(OTHER, OTHER)]
    ensures HasOther(ParseInitialValue(Some(x + ", " + OTHER)))
  {
    assert WellFormedValue(OTHER);
    ReadsBackAsTwo(x, OTHER);
    assert Values([SelectOption(x, x), SelectOption(OTHER, OTHER)])[1] == OTHER;
  }

  /** Two well-formed values joined by ", " read back as two options. */
  lemma ReadsBackAsTwo(x: string, y: string)
    requires WellFormedValue(x) && WellFormedValue(y)
    ensures ParseInitialValue(Some(x + ", " + y)) == [SelectOption(x, x), SelectOption(y, y)]
  {
    JoinOfTwo(x, y);
    ReadsBackJoined([x, y]);
    AsOptionsOfTwo(x, y);
  }

  lemma JoinOfTwo(x: string, y: string)
    ensures Join([x, y], ", ") == x + ", " + y
  {
    assert [x, y][1..] == [y];
  }

  lemma AsOptionsOfTwo(x: string, y: string)
    ensures AsOptions([x, y]) == [SelectOption(x, x), SelectOption(y, y)]
  {
  }

  /** Reading back the string joined from well-formed values gives one option per value. */
  lemma ReadsBackJoined(vs: seq<string>)
    requires |vs| >= 1
    requires forall i :: 0 <= i < |vs| ==> WellFormedValue(vs[i])
    ensures ParseInitialValue(Some(Join(vs, ", "))) == AsOptions(vs)
  {
    PiecesOfCommaString(vs);
  }

  /** Removing "other" keeps the remaining values well formed. */
  lemma WithoutOtherWellFormed(list: seq<SelectOption>)
    requires forall i :: 0 <= i < |list| ==> WellFormedValue(list[i].value)
    ensures forall i :: 0 <= i < |WithoutOther(list)| ==> WellFormedValue(WithoutOther(list)[i].value)
  {
    var w := WithoutOther(list);
    WithoutOtherMembers(list);
    forall i | 0 <= i < |w| ensures WellFormedValue(w[i].value) {
      assert w[i] in list;
      var k :| 0 <= k < |list| && list[k] == w[i];
    }
  }

  /** Every value of `sub` is a value of `sup`. */
  predicate ValuesWithin(sub: seq<SelectOption>, sup: seq<SelectOption>) {
    forall v :: v in Values(sub) ==> v in Values(sup)
  }

  lemma WithoutOtherWithin(list: seq<SelectOption>)
    ensures ValuesWithin(WithoutOther(list), list)
  {
    var w := WithoutOther(list);
    WithoutOtherMembers(list);
    forall v | v in Values(w) ensures v in Values(list) {
      var j :| 0 <= j < |w| && Values(w)[j] == v;
      var m :| 0 <= m < |list| && list[m] == w[j];
      assert Values(list)[m] == v;
    }
  }

  /** A custom value survives the removal of "other". */
  lemma WithoutOtherKeepsCustom(fixedValues: seq<string>, list: seq<SelectOption>)
    requires HasCustom(fixedValues, list)
    ensures HasCustom(fixedValues, WithoutOther(list)) && !HasOther(WithoutOther(list))
  {
    var i :| 0 <= i < |list| && IsCustom(fixedValues, list[i].value);
    var w := WithoutOther(list);
    WithoutOtherMembers(list);
    assert list[i] in w;
    var k :| 0 <= k < |w| && w[k] == list[i];
    assert IsCustom(fixedValues, w[k].value);
  }

  /**
   * The picker's state. `fixedValues` stands for the module constant
   * `STATIC_VALUES`: it is set on mount and no handler changes it.
   */
  datatype Picker = Picker(
    fixedValues: seq<string>,
    options: seq<SelectOption>,
    selected: seq<SelectOption>,
    allowCustom: bool,
    inputValue: string)

  /** A handler's new state, and the string it passed to the `onChange` prop when it called it. */
  datatype Outcome = Outcome(next: Picker, emitted: Option<string>)

  /**
   * "Other" is a fixed value, the menu offers every fixed value and every
   * selected value, and it never lists one value twice.
   */
  predicate ValidPicker(p: Picker) {
    && OTHER in p.fixedValues
    && (forall v :: v in p.fixedValues ==> v in Values(p.options))
    && ValuesWithin(p.selected, p.options)
    && Distinct(Values(p.options))
  }

  /** Merging a list into the options keeps the menu valid for a selection drawn from both. */
  lemma MergeKeepsValid(p: Picker, list: seq<SelectOption>, selected: seq<SelectOption>)
    requires OTHER in p.fixedValues
    requires forall v :: v in p.fixedValues ==> v in Values(p.options)
    requires forall v :: v in Values(selected) ==> v in Values(p.options) || v in Values(list)
    ensures ValidPicker(p.(options := Merged(p.options, list), selected := selected))
  {
    MergedOffersEachValueOnce(p.options, list);
  }

  /** The state right after mounting: the fixed list merged with the parsed initial value. */
  function Mount(initialValue: Option<string>): (p: Picker)
    ensures p.fixedValues == STATIC_VALUES && p.inputValue == ""
    ensures p.selected == ParseInitialValue(initialValue)
    ensures p.allowCustom <==> OTHER in Values(p.selected)
  {
    var initialSelected := ParseInitialValue(initialValue);
    Picker(STATIC_VALUES, Merged(STATIC_DISEASES, initialSelected), initialSelected, HasOther(initialSelected), "")
  }

  lemma MountIsValid(initialValue: Option<string>)
    ensures ValidPicker(Mount(initialValue))
  {
    OtherIsStatic();
    var sel := ParseInitialValue(initialValue);
    var p := Picker(STATIC_VALUES, STATIC_DISEASES, [], false, "");
    MergeKeepsValid(p, sel, sel);
  }

  /** The effect that runs when the parsed initial value changes. */
  function Sync(p: Picker, initialValue: Option<string>): (q: Picker)
    ensures q.fixedValues == p.fixedValues && q.inputValue == p.inputValue
    ensures q.selected == ParseInitialValue(initialValue)
    ensures q.allowCustom <==> OTHER in Values(q.selected)
  {
    var initialSelected := ParseInitialValue(initialValue);
    p.(options := Merged(p.options, initialSelected), selected := initialSelected, allowCustom := HasOther(initialSelected))
  }

  lemma SyncKeepsValid(p: Picker, initialValue: Option<string>)
    requires ValidPicker(p)
    ensures ValidPicker(Sync(p, initialValue))
  {
    var sel := ParseInitialValue(initialValue);
    MergeKeepsValid(p, sel, sel);
  }

  /** The effect merges the parsed value into the menu: it offers what it offered before and the parsed values, and nothing else. */
  lemma SyncOffersParsedValues(p: Picker, initialValue: Option<string>)
    ensures var q := Sync(p, initialValue);
            forall v :: v in Values(q.options) <==> v in Values(p.options) || v in Values(ParseInitialValue(initialValue))
  {
    MergedOffersEachValueOnce(p.options, ParseInitialValue(initialValue));
  }

  /** The effect's first run, right after mounting, changes nothing. */
  lemma MountThenSyncChangesNothing(initialValue: Option<string>)
    ensures Sync(Mount(initialValue), initialValue) == Mount(initialValue)
  {
    var sel := ParseInitialValue(initialValue);
    MergedOffersEachValueOnce(STATIC_DISEASES, sel);
    MergeAbsorbsKnownOptions(Merged(STATIC_DISEASES, sel), sel);
  }

  /** `addCustomOption`. */
  function AddCustom(p: Picker, value: string): (out: Outcome)
    ensures out.emitted.Some? <==> Trim(value) != "" && Trim(value) !in Values(p.options)
    ensures out.emitted.None? ==> out.next == p
    ensures out.next.fixedValues == p.fixedValues
  {
    var trimmed := Trim(value);
    if trimmed == "" || trimmed in Values(p.options) then Outcome(p, None) else Added(p, trimmed)
  }

  /** The state updates and the `onChange` call of `addCustomOption` once `trimmed` is accepted. */
  function Added(p: Picker, trimmed: string): Outcome {
    var newOption := SelectOption(trimmed, trimmed);
    var nextSelected := WithoutOther(p.selected) + [newOption];
    Outcome(
      p.(options := Merged(p.options, [newOption]), selected := nextSelected, allowCustom := true, inputValue := ""),
      Some(ToCommaString(Some(nextSelected))))
  }

  /**
   * A custom value that is added drops "other" from the selection and is
   * appended at its end; the menu offers what it offered before and the new
   * value, and nothing else; custom entry opens, the input clears, and the
   * new selection is emitted.
   */
  lemma AddCustomEffect(p: Picker, value: string)
    requires ValidPicker(p)
    ensures var out := AddCustom(p, value);
            var added := SelectOption(Trim(value), Trim(value));
            out.emitted.Some? ==>
              && out.next.selected == WithoutOther(p.selected) + [added]
              && (forall v :: v in Values(out.next.options) <==> v in Values(p.options) || v == Trim(value))
              && HasCustom(p.fixedValues, out.next.selected) && !HasOther(out.next.selected)
              && out.next.allowCustom && out.next.inputValue == ""
              && out.emitted == Some(ToCommaString(Some(out.next.selected)))
  {
    var t := Trim(value);
    if t != "" && t !in Values(p.options) {
      assert IsCustom(p.fixedValues, t);
      CustomAppended(p.fixedValues, WithoutOther(p.selected), t);
      MergeOffersAdded(p.options, t);
    }
  }

  /** A custom value appended to a selection without "other" gives a selection with a custom value and no "other". */
  lemma CustomAppended(fixedValues: seq<string>, w: seq<SelectOption>, t: string)
    requires forall i :: 0 <= i < |w| ==> w[i].value != OTHER
    requires IsCustom(fixedValues, t)
    ensures HasCustom(fixedValues, w + [SelectOption(t, t)])
    ensures !HasOther(w + [SelectOption(t, t)])
  {
    var next := w + [SelectOption(t, t)];
    assert IsCustom(fixedValues, next[|w|].value);
    assert forall j :: 0 <= j < |next| ==> Values(next)[j] != OTHER by {
      forall j | 0 <= j < |next| ensures Values(next)[j] != OTHER {
        if j < |w| { assert next[j] == w[j]; }
      }
    }
  }

  /** Merging a one-option list into the menu offers what it offered before and that option's value. */
  lemma MergeOffersAdded(options: seq<SelectOption>, t: string)
    ensures forall v :: v in Values(Merged(options, [SelectOption(t, t)])) <==> v in Values(options) || v == t
  {
    MergedOffersEachValueOnce(options, [SelectOption(t, t)]);
    assert Values([SelectOption(t, t)]) == [t];
  }

  lemma AddCustomKeepsValid(p: Picker, value: string)
    requires ValidPicker(p)
    ensures ValidPicker(AddCustom(p, value).next)
  {
    var t := Trim(value);
    if t != "" && t !in Values(p.options) {
      var added := SelectOption(t, t);
      var w := WithoutOther(p.selected);
      WithoutOtherWithin(p.selected);
      AppendedValues(w, added);
      assert Values([added]) == [t];
      MergeKeepsValid(p, [added], w + [added]);
    }
  }

  /** The values of a list with one option appended. */
  lemma AppendedValues(w: seq<SelectOption>, o: SelectOption)
    ensures forall v :: v in Values(w + [o]) ==> v in Values(w) || v == o.value
  {
    assert Values(w + [o]) == Values(w) + [o.value];
  }

  /** `onCreateOption`: ignored unless custom entry is open. */
  function CreateOption(p: Picker, value: string): (out: Outcome)
    ensures out.emitted.Some? <==> IsValidNewOption(p.allowCustom, value, p.options)
    ensures !p.allowCustom ==> out == Outcome(p, None)
  {
    if !p.allowCustom then Outcome(p, None) else AddCustom(p, value)
  }

  /** The confirm button, rendered only while `canCreate` holds: it adds the trimmed text. */
  function Confirm(p: Picker): (out: Outcome)
    requires CanCreate(p.allowCustom, p.options, p.inputValue)
    ensures out.emitted.Some?
  {
    TrimIdempotent(p.inputValue);
    AddCustom(p, Trim(p.inputValue))
  }

  /** Confirming offers the typed text from then on and clears the input. */
  lemma ConfirmOffersTypedText(p: Picker)
    requires ValidPicker(p) && CanCreate(p.allowCustom, p.options, p.inputValue)
    ensures Trim(p.inputValue) in Values(Confirm(p).next.options)
    ensures Confirm(p).next.inputValue == ""
  {
    TrimIdempotent(p.inputValue);
    AddCustomEffect(p, Trim(p.inputValue));
    AddCustomKeepsValid(p, Trim(p.inputValue));
  }

  /** `onChange` of the picker, with `null` read as an empty list. */
  function Change(p: Picker, newValue: Option<seq<SelectOption>>): (out: Outcome)
    ensures out.emitted.Some?
    ensures out.next.fixedValues == p.fixedValues && out.next.inputValue == p.inputValue
  {
    var list := if newValue.None? then [] else newValue.value;
    var hasCustom := HasCustom(p.fixedValues, list);
    var nextAllowCustom := HasOther(list) || hasCustom;
    var nextSelected := if hasCustom && HasOther(list) then WithoutOther(list) else list;
    var saveList := WithoutOther(list);
    Outcome(
      p.(options := Merged(p.options, list), selected := nextSelected, allowCustom := nextAllowCustom),
      Some(ToCommaString(Some(saveList))))
  }

  /**
   * After a change the menu offers what it offered before and every chosen
   * value, and nothing else. The selection is the choice itself, except that
   * "other" is dropped from it when a custom value is chosen too, so it never
   * holds "other" beside a custom value. Custom entry is open exactly when
   * the choice holds "other" or a custom value, which is exactly when the
   * new selection does. The emitted string is the choice without "other".
   */
  lemma ChangeEffect(p: Picker, newValue: Option<seq<SelectOption>>)
    requires ValidPicker(p)
    ensures var list := if newValue.None? then [] else newValue.value;
            var q := Change(p, newValue).next;
            && (forall v :: v in Values(q.options) <==> v in Values(p.options) || v in Values(list))
            && (HasCustom(p.fixedValues, list) ==> q.selected == WithoutOther(list))
            && (!HasCustom(p.fixedValues, list) ==> q.selected == list)
            && !(HasCustom(p.fixedValues, q.selected) && HasOther(q.selected))
            && (q.allowCustom <==> HasOther(list) || HasCustom(p.fixedValues, list))
            && (q.allowCustom <==> HasOther(q.selected) || HasCustom(p.fixedValues, q.selected))
            && Change(p, newValue).emitted == Some(ToCommaString(Some(WithoutOther(list))))
  {
    var list := if newValue.None? then [] else newValue.value;
    var q := Change(p, newValue).next;
    if HasCustom(p.fixedValues, list) {
      if HasOther(list) {
        WithoutOtherKeepsCustom(p.fixedValues, list);
      } else {
        WithoutOtherIdentity(list);
      }
    }
    MergedOffersEachValueOnce(p.options, list);
  }

  lemma ChangeKeepsValid(p: Picker, newValue: Option<seq<SelectOption>>)
    requires ValidPicker(p)
    ensures ValidPicker(Change(p, newValue).next)
  {
    var list := if newValue.None? then [] else newValue.value;
    if HasCustom(p.fixedValues, list) && HasOther(list) {
      WithoutOtherWithin(list);
    }
    MergeKeepsValid(p, list, Change(p, newValue).next.selected);
  }

  /** The initial arguments of the state hooks, which only the first render uses. */
  method InitialState(initialValue: Option<string>) returns (p: Picker)
    ensures ValidPicker(p) && p == Mount(initialValue)
  {
    MountIsValid(initialValue);
    var initialSelected := ParseInitialValue(initialValue);
    var merged := MergeOptions(STATIC_DISEASES, initialSelected);
    p := Picker(STATIC_VALUES, merged, initialSelected, HasOther(initialSelected), "");
  }

  /** One mounted `ChronicDiseaseSelect`: its state hooks as fields. */
  class ChronicDiseaseSelect {
    var fixedValues: seq<string>
    var options: seq<SelectOption>
    var selected: seq<SelectOption>
    var allowCustom: bool
    var inputValue: string

    function State(): Picker
      reads this
    {
      Picker(fixedValues, options, selected, allowCustom, inputValue)
    }

    ghost predicate Valid()
      reads this
    {
      ValidPicker(State())
    }

    constructor (initialValue: Option<string>)
      ensures Valid() && State() == Mount(initialValue)
    {
      var initial := InitialState(initialValue);
      fixedValues := initial.fixedValues;
      options := initial.options;
      selected := initial.selected;
      allowCustom := initial.allowCustom;
      inputValue := initial.inputValue;
      new;
      assert State() == initial;
    }

    method SyncInitial(initialValue: Option<string>)
      requires Valid()
      modifies this
      ensures Valid() && State() == Sync(old(State()), initialValue)
    {
      SyncKeepsValid(State(), initialValue);
      var initialSelected := ParseInitialValue(initialValue);
      var merged := MergeOptions(options, initialSelected);
      selected := initialSelected;
      options := merged;
      allowCustom := HasOther(initialSelected);
    }

    /** `onInputChange`: the typed text is kept as it is. */
    method OnInputChange(value: string)
      modifies this`inputValue
      ensures State() == old(State()).(inputValue := value)
    {
      inputValue := value;
    }

    method AddCustomOption(value: string) returns (emitted: Option<string>)
      requires Valid()
      modifies this
      ensures Valid() && State() == AddCustom(old(State()), value).next
      ensures emitted == AddCustom(old(State()), value).emitted
    {
      var trimmed := Trim(value);
      if trimmed == "" {
        return None;
      }
      if trimmed in Values(options) {
        return None;
      }
      emitted := Accept(trimmed);
      AddCustomKeepsValid(old(State()), value);
    }

    method Accept(trimmed: string) returns (emitted: Option<string>)
      modifies this
      ensures State() == Added(old(State()), trimmed).next
      ensures emitted == Added(old(State()), trimmed).emitted
    {
      var newOption := SelectOption(trimmed, trimmed);
      var nextSelected := WithoutOther(selected) + [newOption];
      var merged := MergeOptions(options, [newOption]);
      allowCustom := true;
      selected := nextSelected;
      options := merged;
      emitted := Some(ToCommaString(Some(nextSelected)));
      inputValue := "";
    }

    method OnCreateOption(value: string) returns (emitted: Option<string>)
      requires Valid()
      modifies this
      ensures Valid() && Outcome(State(), emitted) == CreateOption(old(State()), value)
    {
      if !allowCustom {
        return None;
      }
      emitted := AddCustomOption(value);
    }

    method ConfirmClick() returns (emitted: Option<string>)
      requires Valid() && CanCreate(allowCustom, options, inputValue)
      modifies this
      ensures Valid() && Outcome(State(), emitted) == Confirm(old(State()))
    {
      var trimmedInput := Trim(inputValue);
      emitted := AddCustomOption(trimmedInput);
    }

    method OnChange(newValue: Option<seq<SelectOption>>) returns (emitted: string)
      requires Valid()
      modifies this
      ensures Valid() && Outcome(State(), Some(emitted)) == Change(old(State()), newValue)
    {
      ghost var out := Change(State(), newValue);
      var list := if newValue.None? then [] else newValue.value;
      var hasCustom := HasCustom(fixedValues, list);
      var nextAllowCustom := HasOther(list) || hasCustom;
      var nextSelected := if hasCustom && HasOther(list) then WithoutOther(list) else list;
      var saveList := WithoutOther(list);
      var merged := MergeOptions(options, list);
      assert out == Outcome(Picker(fixedValues, merged, nextSelected, nextAllowCustom, inputValue),
                            Some(ToCommaString(Some(saveList))));
      allowCustom := nextAllowCustom;
      selected := nextSelected;
      options := merged;
      emitted := ToCommaString(Some(saveList));
      assert State() == out.next;
      ChangeKeepsValid(old(State()), newValue);
    }
  }
}
