/** Element records read from an IFC document (`procesar_ifc`): the placeholder
    filter `es_valor_valido`, the attribute, property-set, material and quantity
    dictionaries of one element, their merge into one record, and the progress
    fractions. The document is given as its products and relations; opening and
    writing files is not modelled. */
module Extraction {
  import opened Wrappers
  import opened Seqs
  import opened Text
  import opened Dicts

  /** An attribute value as Python sees it. `Other` is anything that is not a simple
      value (an entity instance, an aggregate, a method), with its `str()`. */
  datatype Value = Null | Str(s: string) | Int(i: int) | Real(x: real) | Bool(b: bool) | Other(repr: string)

  /** Python truthiness; entity instances are truthy. */
  predicate Truthy(v: Value)
  {
    match v
    case Null => false
    case Str(s) => s != ""
    case Int(i) => i != 0
    case Real(x) => x != 0.0
    case Bool(b) => b
    case Other(_) => true
  }

  /** `str(v)`; `floatText` is Python's `str` on floats. */
  function PyStr(v: Value, floatText: real -> string): string
  {
    match v
    case Null => "None"
    case Str(s) => s
    case Int(i) => IntToString(i)
    case Real(x) => floatText(x)
    case Bool(b) => if b then "True" else "False"
    case Other(r) => r
  }

  /** The texts `es_valor_valido` treats as "no value" (line 11). */
  const Placeholders: seq<string> := ["n/a", "na", "none", "empty", "-", "sin definir", ""]

  /** `es_valor_valido(valor)` (lines 7-11). */
  predicate IsValid(v: Value, floatText: real -> string)
  {
    Truthy(v) && Lower(Strip(PyStr(v, floatText))) !in Placeholders
  }

  /** For a text only its trimmed, lower-cased form matters: the emptiness test
      is subsumed by the placeholder `""`. */
  lemma StringValidity(s: string, floatText: real -> string)
    ensures IsValid(Str(s), floatText) <==> Lower(Strip(s)) !in Placeholders
  {
    if s == "" {
      assert Strip(s) == "";
      assert Lower(Strip(s)) == "";
    }
  }

  /** No placeholder begins with a digit. */
  lemma DigitsNotPlaceholder(t: string)
    requires |t| > 0 && AllDigits(t)
    ensures t !in Placeholders
  {
    assert IsDigit(t[0]);
  }

  lemma LowerDigits(t: string)
    requires AllDigits(t)
    ensures Lower(t) == t
  {
    forall i | 0 <= i < |t|
      ensures Lower(t)[i] == t[i]
    {
      assert IsDigit(t[i]);
    }
  }

  /** An integer is a valid value exactly when it is not zero. */
  lemma IntValidity(i: int, floatText: real -> string)
    ensures IsValid(Int(i), floatText) <==> i != 0
  {
    var t := IntToString(i);
    if i > 0 {
      var d := NatToString(i);
      assert t == d;
      assert !IsSpace(d[0]) && !IsSpace(d[|d| - 1]) by {
        assert IsDigit(d[0]) && IsDigit(d[|d| - 1]);
      }
      StripOfStripped(d);
      LowerDigits(d);
      DigitsNotPlaceholder(d);
    } else if i < 0 {
      var d := NatToString(-i);
      assert t == "-" + d;
      assert !IsSpace(t[0]) && !IsSpace(t[|t| - 1]) by {
        assert t[|t| - 1] == d[|d| - 1] && IsDigit(d[|d| - 1]);
      }
      StripOfStripped(t);
      var l := Lower(t);
      assert |l| >= 2 && l[0] == '-';
      assert l[1] == LowerChar(d[0]) && IsDigit(d[0]);
      assert l !in Placeholders;
    }
  }

  /** A boolean is a valid value exactly when it is `True`. */
  lemma BoolValidity(b: bool, floatText: real -> string)
    ensures IsValid(Bool(b), floatText) <==> b
  {
    if b {
      assert Strip("True") == "True" by { StripOfStripped("True"); }
      assert Lower("True") == "true";
    }
  }

  // ---------------------------------------------------------------------------
  // Materials (lines 46-60, 84)

  /** Whether an entity has a `Name` attribute, and its value (`None` or a text). */
  datatype NameAttr = NoName | Named(nameValue: Option<string>)

  /** `rel.RelatingMaterial`: its `Name` and, when it has `ForLayerSet`, the `Name`
      attribute of each layer's material. */
  datatype MaterialDef = MaterialDef(name: NameAttr, layerSet: Option<seq<NameAttr>>)

  datatype MaterialRel = MaterialRel(related: seq<nat>, material: MaterialDef)

  function LayerNames(layers: seq<NameAttr>): seq<Option<string>>
    decreases |layers|
  {
    if |layers| == 0 then []
    else LayerNames(layers[..|layers| - 1])
         + (match layers[|layers| - 1] case NoName => [] case Named(l) => [l])
  }

  /** `posibles` of lines 51-57: the material's own name, then its layers' names. */
  function Candidates(m: MaterialDef): seq<Option<string>>
  {
    (match m.name case NoName => [] case Named(l) => [l])
    + (match m.layerSet case None => [] case Some(ls) => LayerNames(ls))
  }

  /** `es_valor_valido(nombre)` for a `Name`, which is a text or `None`. */
  predicate IsValidName(n: Option<string>)
  {
    match n
    case None => false
    case Some(s) => Lower(Strip(s)) !in Placeholders
  }

  function NameValue(n: Option<string>): Value
  {
    match n
    case None => Null
    case Some(s) => Str(s)
  }

  lemma NameValidity(n: Option<string>, floatText: real -> string)
    ensures IsValidName(n) <==> IsValid(NameValue(n), floatText)
  {
    if n.Some? {
      StringValidity(n.value, floatText);
    }
  }

  /** `nombre.strip()` when `es_valor_valido(nombre)` (lines 59-60). */
  function ValidName(n: Option<string>): Option<string>
  {
    if IsValidName(n) then Some(Strip(n.value)) else None
  }

  /** The trimmed valid names among `ns`, in order. */
  function ValidNames(ns: seq<Option<string>>): seq<string>
  {
    Collect(ns, ValidName)
  }

  /** What one relation adds to `materiales` for element `e` (lines 49-60). */
  function RelNames(e: nat): MaterialRel -> seq<string>
  {
    (rel: MaterialRel) => if e in rel.related then ValidNames(Candidates(rel.material)) else []
  }

  /** What the relations add to `materiales` for element `e`, in the order visited. */
  function MaterialNames(rels: seq<MaterialRel>, e: nat): seq<string>
  {
    Gather(rels, RelNames(e))
  }

  /** The set `materiales`, listed in order of first addition. */
  function Materials(rels: seq<MaterialRel>, e: nat): seq<string>
  {
    Distinct(MaterialNames(rels, e))
  }

  /** `", ".join(materiales) if materiales else "N/A"` (line 84). */
  function MaterialText(ms: seq<string>): string
  {
    if |ms| == 0 then "N/A" else Join(ms, ", ")
  }

  /** The materials of element `e` are the trimmed valid candidate names of the
      material relations that list `e`, each once. */
  lemma MaterialsSpec(rels: seq<MaterialRel>, e: nat, x: string)
    ensures NoDuplicates(Materials(rels, e))
    ensures x in Materials(rels, e) <==>
      exists i :: 0 <= i < |rels| && e in rels[i].related && x in ValidNames(Candidates(rels[i].material))
  {
    GatherMembers(rels, RelNames(e), x);
    if exists i :: 0 <= i < |rels| && x in RelNames(e)(rels[i]) {
      var i :| 0 <= i < |rels| && x in RelNames(e)(rels[i]);
      assert e in rels[i].related && x in ValidNames(Candidates(rels[i].material));
    }
    if exists i :: 0 <= i < |rels| && e in rels[i].related && x in ValidNames(Candidates(rels[i].material)) {
      var i :| 0 <= i < |rels| && e in rels[i].related && x in ValidNames(Candidates(rels[i].material));
      assert x in RelNames(e)(rels[i]);
    }
  }

  /** A material name is never empty and never reads "n/a" in any case. */
  lemma MaterialNameShape(rels: seq<MaterialRel>, e: nat, x: string)
    requires x in Materials(rels, e)
    ensures x != "" && Lower(x) != "n/a"
  {
    MaterialsSpec(rels, e, x);
    var i :| 0 <= i < |rels| && e in rels[i].related && x in ValidNames(Candidates(rels[i].material));
    var ns := Candidates(rels[i].material);
    CollectMembers(ns, ValidName, x);
    var j :| 0 <= j < |ns| && ValidName(ns[j]) == Some(x);
    assert Lower(x) !in Placeholders;
    assert Placeholders[0] == "n/a" && Placeholders[6] == "";
    assert Lower("") == "";
  }

  /** The joined text is at least as long as the first name plus one separator. */
  lemma JoinLength(ms: seq<string>)
    requires |ms| >= 2
    ensures |Join(ms, ", ")| >= |ms[0]| + 2 + |ms[1]|
  {
    if |ms| > 2 {
      JoinLength(ms[1..]);
    }
  }

  /** `Material_IFC` is "N/A" exactly when no related material has a valid name:
      a real material can never produce that text. */
  lemma MaterialTextNA(rels: seq<MaterialRel>, e: nat)
    ensures MaterialText(Materials(rels, e)) == "N/A" <==> |Materials(rels, e)| == 0
  {
    var ms := Materials(rels, e);
    forall i | 0 <= i < |ms|
      ensures ms[i] != "" && Lower(ms[i]) != "n/a"
    {
      MaterialNameShape(rels, e, ms[i]);
    }
    TextNA(ms);
  }

  /** Names that are neither empty nor "n/a" never join to "N/A". */
  lemma TextNA(ms: seq<string>)
    requires forall i :: 0 <= i < |ms| ==> ms[i] != "" && Lower(ms[i]) != "n/a"
    ensures MaterialText(ms) == "N/A" <==> |ms| == 0
  {
    if |ms| == 1 {
      LowerNA();
    } else if |ms| >= 2 {
      JoinLength(ms);
    }
  }

  lemma LowerNA()
    ensures Lower("N/A") == "n/a"
  {
    assert "N/A" == ['N', '/', 'A'];
  }

  /** Every placeholder has at most five characters or exactly eleven. */
  lemma PlaceholderLength(t: string)
    requires 5 < |t| < 11
    ensures t !in Placeholders
  {
  }

  lemma ConcreteIsValid()
    ensures ValidName(Some("Concrete")) == Some("Concrete")
  {
    assert "Concrete"[0] == 'C' && "Concrete"[7] == 'e';
    StripOfStripped("Concrete");
    PlaceholderLength(Lower("Concrete"));
  }

  lemma EmptyIsInvalid()
    ensures ValidName(Some("")) == None
  {
    assert Strip("") == "";
    assert Lower("") == "";
    PlaceholderInvalid("", 6);
  }

  lemma NaIsInvalid()
    ensures ValidName(Some("n/a")) == None
  {
    NaStripped();
    NaLowered();
    PlaceholderInvalid("n/a", 0);
  }

  /** A name that trims and lower-cases to a placeholder is rejected. */
  lemma PlaceholderInvalid(s: string, k: nat)
    requires k < |Placeholders| && Lower(Strip(s)) == Placeholders[k]
    ensures ValidName(Some(s)) == None
  {
  }

  lemma NaStripped()
    ensures Strip("n/a") == "n/a"
  {
    assert "n/a"[0] == 'n' && "n/a"[2] == 'a';
    StripOfStripped("n/a");
  }

  lemma NaLowered()
    ensures Lower("n/a") == "n/a"
  {
    assert "n/a" == ['n', '/', 'a'];
  }

  /** The example of one element related to materials named "", "Concrete",
      "n/a" and "Concrete" again. */
  lemma ConcreteExample()
    ensures MaterialText(Distinct(ValidNames([Some(""), Some("Concrete"), Some("n/a"), Some("Concrete")]))) == "Concrete"
  {
    ExampleNames();
    DistinctTwice("Concrete");
  }

  lemma ExampleNames()
    ensures ValidNames([Some(""), Some("Concrete"), Some("n/a"), Some("Concrete")]) == ["Concrete", "Concrete"]
  {
    ConcreteIsValid();
    EmptyIsInvalid();
    NaIsInvalid();
    ValidNamesFour(Some(""), Some("Concrete"), Some("n/a"), Some("Concrete"), "Concrete", "Concrete");
  }

  lemma ValidNamesFour(a: Option<string>, b: Option<string>, c: Option<string>, d: Option<string>, x: string, y: string)
    requires ValidName(a) == None && ValidName(c) == None
    requires ValidName(b) == Some(x) && ValidName(d) == Some(y)
    ensures ValidNames([a, b, c, d]) == [x, y]
  {
    CollectFour(a, b, c, d, ValidName, x, y);
  }

  lemma CollectFour<T, U>(a: T, b: T, c: T, d: T, f: T -> Option<U>, x: U, y: U)
    requires f(a) == None && f(c) == None && f(b) == Some(x) && f(d) == Some(y)
    ensures Collect([a, b, c, d], f) == [x, y]
  {
    CollectSnoc([], a, f);
    CollectSnoc([a], b, f);
    CollectSnoc([a, b], c, f);
    CollectSnoc([a, b, c], d, f);
    assert [] + [a] == [a] && [a] + [b] == [a, b];
    assert [a, b] + [c] == [a, b, c] && [a, b, c] + [d] == [a, b, c, d];
  }

  // ---------------------------------------------------------------------------
  // Property sets (lines 34-44)

  /** An IFC measure or label: wrapped in an entity with `wrappedValue`, or bare. */
  datatype Nominal = Bare(v: Value) | Wrapped(wrappedValue: Value)

  /** Lines 42-43 and 76-77. */
  function Unwrap(n: Nominal): Value
  {
    match n
    case Bare(v) => v
    case Wrapped(w) => w
  }

  /** A property; `nominal` is `None` when it has no `NominalValue` attribute. */
  datatype Property = Property(name: string, nominal: Option<Nominal>)

  datatype PropertyDef = PropertySet(name: string, properties: seq<Property>) | OtherDefinition

  datatype PropertyRel = PropertyRel(related: seq<nat>, definition: PropertyDef)

  /** `getattr(prop, "NominalValue", None)`, unwrapped. */
  function PropValue(p: Property): Value
  {
    match p.nominal
    case None => Null
    case Some(n) => Unwrap(n)
  }

  /** The key `f"{prop_def.Name}_{prop.Name}"` and its value (line 44). */
  function PropEntry(psetName: string): Property -> Dict<Value>
  {
    (p: Property) => [(psetName + "_" + p.name, PropValue(p))]
  }

  /** The writes one relation makes to `props` for element `e` (lines 37-44). */
  function RelProps(e: nat): PropertyRel -> Dict<Value>
  {
    (rel: PropertyRel) =>
      if e in rel.related && rel.definition.PropertySet?
      then Gather(rel.definition.properties, PropEntry(rel.definition.name))
      else []
  }

  /** Every write to `props`, in order. */
  function PropWrites(rels: seq<PropertyRel>, e: nat): Dict<Value>
  {
    Gather(rels, RelProps(e))
  }

  /** The dictionary `props` of element `e`. */
  function Props(rels: seq<PropertyRel>, e: nat): Dict<Value>
  {
    PutAll([], PropWrites(rels, e))
  }

  /** A later property set overrides an earlier one on the same key. */
  lemma PropsLastWins(rels: seq<PropertyRel>, e: nat, k: string)
    ensures Get(Props(rels, e), k) == LastOf(PropWrites(rels, e), k)
  {
    GetPutAllLast([], PropWrites(rels, e), k);
  }

  /** Relation `rel` is a property set of `e` some property of which is keyed `k`. */
  predicate ProvidesKey(rel: PropertyRel, e: nat, k: string)
  {
    e in rel.related && rel.definition.PropertySet?
    && exists j :: 0 <= j < |rel.definition.properties|
                   && k == rel.definition.name + "_" + rel.definition.properties[j].name
  }

  lemma KeysMember<V>(d: Dict<V>, k: string)
    ensures k in Keys(d) <==> exists v :: (k, v) in d
  {
    if k in Keys(d) {
      var i :| 0 <= i < |d| && Keys(d)[i] == k;
      assert (k, d[i].1) == d[i];
    }
    if exists v :: (k, v) in d {
      var v :| (k, v) in d;
      var i :| 0 <= i < |d| && d[i] == (k, v);
      assert Keys(d)[i] == k;
    }
  }

  /** Only property-set definitions of the element contribute keys. */
  lemma PropKeys(rels: seq<PropertyRel>, e: nat, k: string)
    ensures k in Keys(Props(rels, e)) <==> exists i :: 0 <= i < |rels| && ProvidesKey(rels[i], e, k)
  {
    var w := PropWrites(rels, e);
    KeysPutAll([], w, k);
    KeysMember(w, k);
    if k in Keys(w) {
      var v :| (k, v) in w;
      GatherMembers(rels, RelProps(e), (k, v));
      var i :| 0 <= i < |rels| && (k, v) in RelProps(e)(rels[i]);
      var d := rels[i].definition;
      GatherMembers(d.properties, PropEntry(d.name), (k, v));
      var j :| 0 <= j < |d.properties| && (k, v) in PropEntry(d.name)(d.properties[j]);
      assert ProvidesKey(rels[i], e, k);
    }
    if exists i :: 0 <= i < |rels| && ProvidesKey(rels[i], e, k) {
      var i :| 0 <= i < |rels| && ProvidesKey(rels[i], e, k);
      var d := rels[i].definition;
      var j :| 0 <= j < |d.properties| && k == d.name + "_" + d.properties[j].name;
      var entry := (k, PropValue(d.properties[j]));
      assert entry in PropEntry(d.name)(d.properties[j]);
      GatherMembers(d.properties, PropEntry(d.name), entry);
      GatherMembers(rels, RelProps(e), entry);
    }
  }

  // ---------------------------------------------------------------------------
  // Quantities (lines 69-79)

  /** A quantity and which of `VolumeValue`, `AreaValue`, `LengthValue` it has. */
  datatype Quantity = Quantity(name: string, volume: Option<Nominal>, area: Option<Nominal>, length: Option<Nominal>)

  datatype QuantityRel = QuantityRel(related: seq<nat>, quantities: seq<Quantity>)

  /** Line 75: the first of the three attributes the quantity has, unwrapped; `None`
      when it has none of them. */
  function Selected(q: Quantity): Value
  {
    if q.volume.Some? then Unwrap(q.volume.value)
    else if q.area.Some? then Unwrap(q.area.value)
    else if q.length.Some? then Unwrap(q.length.value)
    else Null
  }

  /** Lines 78-79: the write `quantities[q.Name] = val`, skipped for `None`. */
  function QuantityEntry(q: Quantity): Dict<Value>
  {
    var v := Selected(q);
    if v.Null? then [] else [(q.name, v)]
  }

  function RelQuantities(e: nat): QuantityRel -> Dict<Value>
  {
    (rel: QuantityRel) => if e in rel.related then Gather(rel.quantities, QuantityEntry) else []
  }

  /** `quantities`: read only for an IFC4 document. */
  function Quantities(schema: string, rels: seq<QuantityRel>, e: nat): Dict<Value>
  {
    if schema == "IFC4" then PutAll([], Gather(rels, RelQuantities(e))) else []
  }

  /** No quantity outside IFC4; inside, no key holds `None`, a key comes from a
      quantity of a relation of the element, and the last such quantity wins. */
  lemma QuantitiesSpec(schema: string, rels: seq<QuantityRel>, e: nat, k: string)
    ensures schema != "IFC4" ==> Quantities(schema, rels, e) == []
    ensures Get(Quantities(schema, rels, e), k).Some? ==> !Get(Quantities(schema, rels, e), k).value.Null?
    ensures schema == "IFC4" ==>
      Get(Quantities(schema, rels, e), k) == LastOf(Gather(rels, RelQuantities(e)), k)
    ensures k in Keys(Quantities(schema, rels, e)) ==>
      exists i, j :: 0 <= i < |rels| && e in rels[i].related && 0 <= j < |rels[i].quantities|
                     && rels[i].quantities[j].name == k && !Selected(rels[i].quantities[j]).Null?
  {
    if schema == "IFC4" {
      var w := Gather(rels, RelQuantities(e));
      GetPutAllLast([], w, k);
      KeysPutAll([], w, k);
      if k in Keys(w) {
        LastOfEntry(w, k);
        var n :| 0 <= n < |w| && w[n] == (k, LastOf(w, k).value) && forall m :: n < m < |w| ==> w[m].0 != k;
        GatherMembers(rels, RelQuantities(e), w[n]);
        var i :| 0 <= i < |rels| && w[n] in RelQuantities(e)(rels[i]);
        GatherMembers(rels[i].quantities, QuantityEntry, w[n]);
        var j :| 0 <= j < |rels[i].quantities| && w[n] in QuantityEntry(rels[i].quantities[j]);
      }
    }
  }

  // ---------------------------------------------------------------------------
  // Simple attributes and the record (lines 29-32, 62-67, 81-86)

  /** An `IfcProduct`: its entity number (what `element in rel.RelatedObjects`
      compares), its `GlobalId`, and `dir(element)` with each name's value. */
  datatype Product = Product(stepId: nat, globalId: string, attributes: Dict<Value>)

  /** `isinstance(val, (str, int, float, bool))` */
  predicate IsSimple(v: Value)
  {
    v.Str? || v.Int? || v.Real? || v.Bool?
  }

  /** Lines 64-67: public attributes with a simple value. Methods have no simple
      value, so the test for `callable` is subsumed. */
  function AttributeEntry(a: (string, Value)): Dict<Value>
  {
    if !(|a.0| > 0 && a.0[0] == '_') && IsSimple(a.1) then [a] else []
  }

  /** `getattr(element, "Name", "N/A")` */
  function NameOf(p: Product): Value
  {
    match Get(p.attributes, "Name")
    case Some(v) => v
    case None => Str("N/A")
  }

  /** `element_data` after line 67. */
  function ElementData(p: Product): Dict<Value>
  {
    PutAll([("ID", Str(p.globalId)), ("Nombre", NameOf(p))], Gather(p.attributes, AttributeEntry))
  }

  datatype Document = Document(schema: string, products: seq<Product>, propertyRels: seq<PropertyRel>,
                               materialRels: seq<MaterialRel>, quantityRels: seq<QuantityRel>)

  /** `{**element_data, **props, "Material_IFC": material, **quantities}` */
  function Merge(elementData: Dict<Value>, props: Dict<Value>, material: string, quantities: Dict<Value>): Dict<Value>
  {
    PutAll(Put(PutAll(elementData, props), "Material_IFC", Str(material)), quantities)
  }

  /** `final_data` (lines 81-86). */
  function Record(doc: Document, p: Product): Dict<Value>
  {
    Merge(ElementData(p), Props(doc.propertyRels, p.stepId),
          MaterialText(Materials(doc.materialRels, p.stepId)), Quantities(doc.schema, doc.quantityRels, p.stepId))
  }

  /** In a merge a later part decides every key it has. */
  lemma MergeGet(elementData: Dict<Value>, props: Dict<Value>, material: string, quantities: Dict<Value>, k: string)
    requires UniqueKeys(props) && UniqueKeys(quantities)
    ensures Get(Merge(elementData, props, material, quantities), k)
      == if k in Keys(quantities) then Get(quantities, k)
         else if k == "Material_IFC" then Some(Str(material))
         else if k in Keys(props) then Get(props, k)
         else Get(elementData, k)
  {
    var base := PutAll(elementData, props);
    GetPutAll(Put(base, "Material_IFC", Str(material)), quantities, k);
    GetPut(base, "Material_IFC", Str(material), k);
    GetPutAll(elementData, props, k);
  }

  lemma PropsUnique(rels: seq<PropertyRel>, e: nat)
    ensures UniqueKeys(Props(rels, e))
  {
    UniquePutAll([], PropWrites(rels, e));
  }

  lemma QuantitiesUnique(schema: string, rels: seq<QuantityRel>, e: nat)
    ensures UniqueKeys(Quantities(schema, rels, e))
  {
    if schema == "IFC4" {
      UniquePutAll([], Gather(rels, RelQuantities(e)));
    }
  }

  /** Merge precedence: quantities over `Material_IFC` over property-set fields over
      element attributes. */
  lemma MergePrecedence(doc: Document, p: Product, k: string)
    ensures var q := Quantities(doc.schema, doc.quantityRels, p.stepId);
            var props := Props(doc.propertyRels, p.stepId);
      Get(Record(doc, p), k)
      == if k in Keys(q) then Get(q, k)
         else if k == "Material_IFC" then Some(Str(MaterialText(Materials(doc.materialRels, p.stepId))))
         else if k in Keys(props) then Get(props, k)
         else Get(ElementData(p), k)
  {
    PropsUnique(doc.propertyRels, p.stepId);
    QuantitiesUnique(doc.schema, doc.quantityRels, p.stepId);
    MergeGet(ElementData(p), Props(doc.propertyRels, p.stepId), MaterialText(Materials(doc.materialRels, p.stepId)),
             Quantities(doc.schema, doc.quantityRels, p.stepId), k);
  }

  /** A property key contains the separator `_`. */
  lemma PropKeyHasUnderscore(rels: seq<PropertyRel>, e: nat, k: string)
    requires k in Keys(Props(rels, e))
    ensures '_' in k
  {
    PropKeys(rels, e, k);
    var i :| 0 <= i < |rels| && ProvidesKey(rels[i], e, k);
    var d := rels[i].definition;
    var j :| 0 <= j < |d.properties| && k == d.name + "_" + d.properties[j].name;
    assert k[|d.name|] == '_';
  }

  /** The record's `ID` is the element's `GlobalId`, unless a quantity or an
      attribute of the element is itself called `ID`. */
  lemma RecordId(doc: Document, p: Product)
    requires "ID" !in Keys(Quantities(doc.schema, doc.quantityRels, p.stepId))
    requires "ID" !in Keys(p.attributes)
    ensures Get(Record(doc, p), "ID") == Some(Str(p.globalId))
  {
    MergePrecedence(doc, p, "ID");
    if "ID" in Keys(Props(doc.propertyRels, p.stepId)) {
      PropKeyHasUnderscore(doc.propertyRels, p.stepId, "ID");
    }
    var w := Gather(p.attributes, AttributeEntry);
    GetPutAllLast([("ID", Str(p.globalId)), ("Nombre", NameOf(p))], w, "ID");
    AttributeKeys(p.attributes, "ID");
  }

  /** Only attributes of the element become keys of `element_data`. */
  lemma AttributeKeys(attrs: Dict<Value>, k: string)
    ensures k in Keys(Gather(attrs, AttributeEntry)) ==> k in Keys(attrs)
  {
    var w := Gather(attrs, AttributeEntry);
    KeysMember(w, k);
    KeysMember(attrs, k);
    if k in Keys(w) {
      var v :| (k, v) in w;
      GatherMembers(attrs, AttributeEntry, (k, v));
    }
  }

  // ---------------------------------------------------------------------------
  // The loops of `procesar_ifc`

  /** Line 44 for every property of one property set, written over `props0`. */
  method WriteProperties(props0: Dict<Value>, name: string, ps: seq<Property>) returns (props: Dict<Value>)
    ensures props == PutAll(props0, Gather(ps, PropEntry(name)))
  {
    props := props0;
    var k := 0;
    while k < |ps|
      invariant 0 <= k <= |ps|
      invariant props == PutAll(props0, Gather(ps[..k], PropEntry(name)))
    {
      GatherSnoc(ps[..k], ps[k], PropEntry(name));
      TakeSnoc(ps, k);
      var key := name + "_" + ps[k].name;
      var value := PropValue(ps[k]);
      PutAllSnoc(props0, Gather(ps[..k], PropEntry(name)), key, value);
      props := Put(props, key, value);
      k := k + 1;
    }
    assert ps[..|ps|] == ps;
  }

  /** Lines 35-44 for element `e`. */
  method CollectProps(rels: seq<PropertyRel>, e: nat) returns (props: Dict<Value>)
    ensures props == Props(rels, e)
  {
    props := [];
    ghost var done: Dict<Value> := [];
    var i := 0;
    while i < |rels|
      invariant 0 <= i <= |rels|
      invariant done == PropWrites(rels[..i], e) && props == PutAll([], done)
    {
      var rel := rels[i];
      ghost var writes := RelProps(e)(rel);
      GatherSnoc(rels[..i], rel, RelProps(e));
      assert rels[..i + 1] == rels[..i] + [rel];
      PutAllAppend([], done, writes);
      if e in rel.related && rel.definition.PropertySet? {
        props := WriteProperties(props, rel.definition.name, rel.definition.properties);
      }
      done := done + writes;
      i := i + 1;
    }
    assert rels[..|rels|] == rels;
  }

  /** Lines 51-57: `posibles`. */
  method CandidateNames(m: MaterialDef) returns (posibles: seq<Option<string>>)
    ensures posibles == Candidates(m)
  {
    posibles := [];
    if m.name.Named? {
      posibles := posibles + [m.name.nameValue];
    }
    if m.layerSet.Some? {
      var layers := m.layerSet.value;
      ghost var own := posibles;
      var k := 0;
      while k < |layers|
        invariant 0 <= k <= |layers|
        invariant posibles == own + LayerNames(layers[..k])
      {
        assert layers[..k + 1][..k] == layers[..k];
        if layers[k].Named? {
          AppendAssoc(own, LayerNames(layers[..k]), [layers[k].nameValue]);
          posibles := posibles + [layers[k].nameValue];
        } else {
          AppendNil(LayerNames(layers[..k]));
        }
        k := k + 1;
      }
      assert layers[..|layers|] == layers;
    } else {
      AppendNil(posibles);
    }
  }

  /** What one candidate name does to the list of materials. */
  function AddName(ms: seq<string>, nombre: Option<string>): seq<string>
  {
    if IsValidName(nombre) && Strip(nombre.value) !in ms then ms + [Strip(nombre.value)] else ms
  }

  lemma AddNameStep(before: seq<string>, posibles: seq<Option<string>>, k: nat, ms: seq<string>)
    requires k < |posibles|
    requires ms == Distinct(before + ValidNames(posibles[..k]))
    ensures AddName(ms, posibles[k]) == Distinct(before + ValidNames(posibles[..k + 1]))
  {
    CollectSnoc(posibles[..k], posibles[k], ValidName);
    TakeSnoc(posibles, k);
    var seen := before + ValidNames(posibles[..k]);
    var nombre := posibles[k];
    if IsValidName(nombre) {
      var s := Strip(nombre.value);
      assert ValidNames(posibles[..k + 1]) == ValidNames(posibles[..k]) + [s];
      AppendAssoc(before, ValidNames(posibles[..k]), [s]);
      DistinctSnoc(seen, s);
    } else {
      assert ValidNames(posibles[..k + 1]) == ValidNames(posibles[..k]) + [];
      AppendNil(ValidNames(posibles[..k]));
    }
  }

  /** Lines 58-60 for one relation's candidate names. */
  method AddNames(ghost before: seq<string>, ms0: seq<string>, posibles: seq<Option<string>>) returns (ms: seq<string>)
    requires ms0 == Distinct(before)
    ensures ms == Distinct(before + ValidNames(posibles))
  {
    ms := ms0;
    assert posibles[..0] == [];
    AppendNil(before);
    var k := 0;
    while k < |posibles|
      invariant 0 <= k <= |posibles|
      invariant ms == Distinct(before + ValidNames(posibles[..k]))
    {
      AddNameStep(before, posibles, k, ms);
      var nombre := posibles[k];
      if IsValidName(nombre) {
        var s := Strip(nombre.value);
        if s !in ms {
          ms := ms + [s];
        }
      }
      k := k + 1;
    }
    assert posibles[..|posibles|] == posibles;
  }

  /** Lines 47-60 for element `e`: the set `materiales`, as a list without repeats. */
  method CollectMaterials(rels: seq<MaterialRel>, e: nat) returns (materiales: seq<string>)
    ensures materiales == Materials(rels, e)
  {
    materiales := [];
    var i := 0;
    while i < |rels|
      invariant 0 <= i <= |rels|
      invariant materiales == Distinct(MaterialNames(rels[..i], e))
    {
      GatherSnoc(rels[..i], rels[i], RelNames(e));
      TakeSnoc(rels, i);
      ghost var before := MaterialNames(rels[..i], e);
      if e in rels[i].related {
        var posibles := CandidateNames(rels[i].material);
        materiales := AddNames(before, materiales, posibles);
      } else {
        AppendNil(before);
      }
      i := i + 1;
    }
    assert rels[..|rels|] == rels;
  }

  /** Lines 74-79 for the quantities of one relation, written over `q0`. */
  method WriteQuantities(q0: Dict<Value>, qs: seq<Quantity>) returns (quantities: Dict<Value>)
    ensures quantities == PutAll(q0, Gather(qs, QuantityEntry))
  {
    quantities := q0;
    var k := 0;
    while k < |qs|
      invariant 0 <= k <= |qs|
      invariant quantities == PutAll(q0, Gather(qs[..k], QuantityEntry))
    {
      GatherSnoc(qs[..k], qs[k], QuantityEntry);
      TakeSnoc(qs, k);
      var val := Selected(qs[k]);
      if !val.Null? {
        PutAllSnoc(q0, Gather(qs[..k], QuantityEntry), qs[k].name, val);
        quantities := Put(quantities, qs[k].name, val);
      } else {
        AppendNil(Gather(qs[..k], QuantityEntry));
      }
      k := k + 1;
    }
    assert qs[..|qs|] == qs;
  }

  /** Lines 70-79 for element `e`. */
  method CollectQuantities(schema: string, rels: seq<QuantityRel>, e: nat) returns (quantities: Dict<Value>)
    ensures quantities == Quantities(schema, rels, e)
  {
    quantities := [];
    if schema != "IFC4" {
      return;
    }
    ghost var done: Dict<Value> := [];
    var i := 0;
    while i < |rels|
      invariant 0 <= i <= |rels|
      invariant done == Gather(rels[..i], RelQuantities(e)) && quantities == PutAll([], done)
    {
      var rel := rels[i];
      ghost var writes := RelQuantities(e)(rel);
      GatherSnoc(rels[..i], rel, RelQuantities(e));
      assert rels[..i + 1] == rels[..i] + [rel];
      PutAllAppend([], done, writes);
      if e in rel.related {
        quantities := WriteQuantities(quantities, rel.quantities);
      }
      done := done + writes;
      i := i + 1;
    }
    assert rels[..|rels|] == rels;
  }

  /** Lines 29-32 and 62-67. */
  method CollectElementData(p: Product) returns (data: Dict<Value>)
    ensures data == ElementData(p)
  {
    var base := [("ID", Str(p.globalId)), ("Nombre", NameOf(p))];
    data := base;
    var attrs := p.attributes;
    var k := 0;
    while k < |attrs|
      invariant 0 <= k <= |attrs|
      invariant data == PutAll(base, Gather(attrs[..k], AttributeEntry))
    {
      AttributeStep(base, attrs, k);
      var (name, val) := attrs[k];
      if !(|name| > 0 && name[0] == '_') && IsSimple(val) {
        data := Put(data, name, val);
      }
      k := k + 1;
    }
    assert attrs[..|attrs|] == attrs;
  }

  /** One attribute more: it is written when public and simple. */
  lemma AttributeStep(base: Dict<Value>, attrs: seq<(string, Value)>, k: nat)
    requires k < |attrs|
    ensures PutAll(base, Gather(attrs[..k + 1], AttributeEntry))
         == if AttributeEntry(attrs[k]) == [] then PutAll(base, Gather(attrs[..k], AttributeEntry))
            else Put(PutAll(base, Gather(attrs[..k], AttributeEntry)), attrs[k].0, attrs[k].1)
  {
    GatherSnoc(attrs[..k], attrs[k], AttributeEntry);
    TakeSnoc(attrs, k);
    if AttributeEntry(attrs[k]) == [] {
      AppendNil(Gather(attrs[..k], AttributeEntry));
    } else {
      PutAllSnoc(base, Gather(attrs[..k], AttributeEntry), attrs[k].0, attrs[k].1);
    }
  }

  // ---------------------------------------------------------------------------
  // The element loop (lines 13-27, 88)

  /** The fraction `idx / total` reported before element `idx` of `total`. */
  function Fraction(idx: nat, total: nat): real
    requires idx < total
  {
    idx as real / total as real
  }

  /** The values passed to `update_progress` before the first `n` elements. */
  function Progress(n: nat, total: nat): (r: seq<real>)
    requires n <= total
    ensures |r| == n
  {
    if n == 0 then [] else Progress(n - 1, total) + [Fraction(n - 1, total)]
  }

  lemma {:induction false} ProgressAt(n: nat, total: nat, i: nat)
    requires i < n <= total
    ensures Progress(n, total)[i] == Fraction(i, total)
  {
    if i < n - 1 {
      ProgressAt(n - 1, total, i);
    }
  }

  /** The progress values start at 0, rise strictly and stay below 1. */
  lemma ProgressShape(total: nat, i: nat, j: nat)
    requires i < j < total
    ensures Progress(total, total)[0] == 0.0
    ensures 0.0 <= Progress(total, total)[i] < Progress(total, total)[j] < 1.0
  {
    ProgressAt(total, total, 0);
    ProgressAt(total, total, i);
    ProgressAt(total, total, j);
    FractionOrder(i, j, total);
  }

  lemma FractionOrder(i: nat, j: nat, total: nat)
    requires i < j < total
    ensures 0.0 <= Fraction(i, total) < Fraction(j, total) < 1.0
  {
    var t := total as real;
    assert i as real < j as real < t;
    assert Fraction(i, total) * t == i as real;
    assert Fraction(j, total) * t == j as real;
  }

  function RecordOf(doc: Document): Product -> Dict<Value>
  {
    (p: Product) => Record(doc, p)
  }

  /** Lines 29-86 for one element. */
  method BuildRecord(doc: Document, element: Product) returns (finalData: Dict<Value>)
    ensures finalData == RecordOf(doc)(element)
  {
    var elementData := CollectElementData(element);
    var props := CollectProps(doc.propertyRels, element.stepId);
    var materiales := CollectMaterials(doc.materialRels, element.stepId);
    var quantities := CollectQuantities(doc.schema, doc.quantityRels, element.stepId);
    finalData := Merge(elementData, props, MaterialText(materiales), quantities);
  }

  datatype ExtractError = IfcNotFound

  datatype Extracted = Extracted(records: seq<Dict<Value>>, progress: seq<real>)

  /** The loop of lines 25-88 over `model.by_type("IfcProduct")`, with the
      record of one element computed by `build`. */
  method VisitProducts(productos: seq<Product>, build: Product -> Dict<Value>, withProgress: bool)
    returns (data: seq<Dict<Value>>, progress: seq<real>)
    ensures data == Map(productos, build)
    ensures progress == if withProgress then Progress(|productos|, |productos|) else []
  {
    var total := |productos|;
    data := [];
    progress := [];
    var idx := 0;
    while idx < total
      invariant 0 <= idx <= total
      invariant data == Map(productos[..idx], build)
      invariant progress == if withProgress then Progress(idx, total) else []
    {
      var element := productos[idx];
      if withProgress {
        progress := progress + [Fraction(idx, total)];
      }
      var finalData := build(element);
      MapSnoc(productos[..idx], element, build);
      assert productos[..idx + 1] == productos[..idx] + [element];
      data := data + [finalData];
      idx := idx + 1;
    }
    assert productos[..total] == productos;
  }

  /** `procesar_ifc(ruta_ifc, carpeta_salida, update_progress)` on the opened
      document `doc`: `fileExists` is `os.path.isfile(ruta_ifc)`, `withProgress`
      whether a callback was passed, and the values it receives are returned. */
  method ProcessIfc(fileExists: bool, doc: Document, withProgress: bool) returns (r: Result<Extracted, ExtractError>)
    ensures !fileExists <==> r.Failure?
    ensures r.Failure? ==> r.error == IfcNotFound
    ensures r.Success? ==>
      r.value.records == Map(doc.products, RecordOf(doc))
      && r.value.progress == (if withProgress then Progress(|doc.products|, |doc.products|) else [])
  {
    if !fileExists {
      return Failure(IfcNotFound);
    }
    var data, progress := VisitProducts(doc.products, RecordOf(doc), withProgress);
    return Success(Extracted(data, progress));
  }

  /** One record per product, in order, each the merge of that product's parts. */
  lemma RecordsInOrder(doc: Document, i: nat)
    requires i < |doc.products|
    ensures |Map(doc.products, RecordOf(doc))| == |doc.products|
    ensures Map(doc.products, RecordOf(doc))[i] == Record(doc, doc.products[i])
  {
    MapAt(doc.products, RecordOf(doc), i);
  }
}
