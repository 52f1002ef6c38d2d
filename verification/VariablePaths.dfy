/**
 * Writing a node's output at a path of the session's variables, and mapping such paths to a node's input.
 *
 * Variables are a tree of dictionaries and lists. A name is read as an attribute, so a name that every dictionary has
 * as an attribute of its own gives that attribute and hides the key; it is written as a key all the same. Two names,
 * `_properties` and `_setters`, are kept on the dictionary itself, and every later write of a key looks at both.
 */
module VariablePaths {
  import opened Options

  datatype Key = Name(name: string) | Index(index: nat)

  /** What `_properties` and `_setters` hold. */
  datatype Hooks = Hooks(properties: Value, setters: Value)

  datatype Value =
    | Null
    // Truth values are integers.
    | Int(integer: int)
    | Float(number: real)
    | Str(text: string)
    | List(items: seq<Value>)
    // A dictionary of the variables, whose keys are read as attributes.
    | Dict(entries: map<Key, Value>, hooks: Hooks)
    // A plain dictionary, as an output or a hook may be.
    | Plain(entries: map<Key, Value>)
    // What Python gives a value as an attribute: `variables.items` is a method.
    | Own(name: string)

  const EMPTY_HOOKS := Hooks(Plain(map[]), Plain(map[]))
  const EMPTY_DICT := Dict(map[], EMPTY_HOOKS)

  predicate IsDictionary(v: Value) { v.Dict? || v.Plain? }

  predicate IsContainer(v: Value) { IsDictionary(v) || v.List? }

  /** What every Python object has as attributes. */
  predicate ObjectAttribute(name: string) {
    || name in {"__class__", "__delattr__", "__dir__", "__doc__", "__eq__", "__format__", "__ge__", "__getattribute__"}
    || name in {"__getstate__", "__gt__", "__hash__", "__init__", "__init_subclass__", "__le__", "__lt__", "__ne__"}
    || name in {"__new__", "__reduce__", "__reduce_ex__", "__repr__", "__setattr__", "__sizeof__", "__str__"}
    || name in {"__subclasshook__"}
  }

  /** What every Python dictionary has as attributes. */
  predicate DictAttribute(name: string) {
    || ObjectAttribute(name)
    || name in {"clear", "copy", "fromkeys", "get", "items", "keys", "pop", "popitem", "setdefault", "update", "values"}
    || name in {"__class_getitem__", "__contains__", "__delitem__", "__getitem__", "__ior__", "__iter__", "__len__"}
    || name in {"__or__", "__reversed__", "__ror__", "__setitem__"}
  }

  /** What a dictionary of the variables has as attributes besides its keys and its hooks. */
  predicate OwnAttribute(name: string) {
    || DictAttribute(name)
    || name in {"add_property", "add_setter", "deep_dump", "model_dump", "_update_properties", "_validate"}
    || name in {"__dict__", "__getattr__", "__module__", "__weakref__"}
    || name in {"__get_pydantic_core_schema__", "__get_pydantic_json_schema__"}
  }

  /** What a list of the variables has as attributes. */
  predicate ListAttribute(name: string) {
    || ObjectAttribute(name)
    || name in {"_validate", "append", "clear", "copy", "count", "deep_dump", "extend", "index", "insert", "model_dump"}
    || name in {"pop", "remove", "reverse", "sort", "__add__", "__class_getitem__", "__contains__", "__delitem__"}
    || name in {"__dict__", "__get_pydantic_core_schema__", "__get_pydantic_json_schema__", "__getitem__", "__iadd__"}
    || name in {"__imul__", "__iter__", "__len__", "__module__", "__mul__", "__reversed__", "__rmul__", "__setitem__"}
    || name in {"__weakref__"}
  }

  /** What every text has as attributes. */
  predicate TextAttribute(name: string) {
    || ObjectAttribute(name)
    || name in {"capitalize", "casefold", "center", "count", "encode", "endswith", "expandtabs", "find", "format"}
    || name in {"format_map", "index", "isalnum", "isalpha", "isascii", "isdecimal", "isdigit", "isidentifier"}
    || name in {"islower", "isnumeric", "isprintable", "isspace", "istitle", "isupper", "join", "ljust", "lower"}
    || name in {"lstrip", "maketrans", "partition", "removeprefix", "removesuffix", "replace", "rfind", "rindex"}
    || name in {"rjust", "rpartition", "rsplit", "rstrip", "split", "splitlines", "startswith", "strip", "swapcase"}
    || name in {"title", "translate", "upper", "zfill", "__add__", "__contains__", "__getitem__", "__getnewargs__"}
    || name in {"__iter__", "__len__", "__mod__", "__mul__", "__rmod__", "__rmul__"}
  }

  /** What every number has as attributes. */
  predicate NumberAttribute(name: string) {
    || ObjectAttribute(name)
    || name in {"as_integer_ratio", "conjugate", "imag", "is_integer", "real", "__abs__", "__add__", "__bool__"}
    || name in {"__ceil__", "__divmod__", "__float__", "__floor__", "__floordiv__", "__getnewargs__", "__int__"}
    || name in {"__mod__", "__mul__", "__neg__", "__pos__", "__pow__", "__radd__", "__rdivmod__", "__rfloordiv__"}
    || name in {"__rmod__", "__rmul__", "__round__", "__rpow__", "__rsub__", "__rtruediv__", "__sub__", "__truediv__"}
    || name in {"__trunc__"}
  }

  /** What every integer has as attributes, and so has a truth value. */
  predicate IntAttribute(name: string) {
    || NumberAttribute(name)
    || name in {"bit_count", "bit_length", "denominator", "from_bytes", "numerator", "to_bytes", "__and__", "__index__"}
    || name in {"__invert__", "__lshift__", "__or__", "__rand__", "__rlshift__", "__ror__", "__rrshift__", "__rshift__"}
    || name in {"__rxor__", "__xor__"}
  }

  /** What every floating-point number has as attributes. */
  predicate FloatAttribute(name: string) {
    || NumberAttribute(name)
    || name in {"fromhex", "hex", "__getformat__"}
  }

  /** What a method has as attributes. */
  predicate MethodAttribute(name: string) {
    || ObjectAttribute(name)
    || name in {"__call__", "__module__", "__name__", "__qualname__", "__self__", "__text_signature__"}
  }

  /** What a value that is no dictionary of the variables has as attributes. */
  predicate HasOwn(v: Value, name: string)
    requires !v.Dict?
  {
    match v
    case Null => ObjectAttribute(name) || name == "__bool__"
    case Int(_) => IntAttribute(name)
    case Float(_) => FloatAttribute(name)
    case Str(_) => TextAttribute(name)
    case List(_) => ListAttribute(name)
    case Plain(_) => DictAttribute(name)
    case Own(_) => MethodAttribute(name)
  }

  /** That attribute; the parts of a number are numbers. */
  function OwnValue(v: Value, name: string): Value {
    if (v.Int? && name in {"real", "numerator"}) || (v.Float? && name == "real") then v
    else if v.Int? && name == "denominator" then Int(1)
    else if v.Int? && name == "imag" then Int(0)
    else if v.Float? && name == "imag" then Float(0.0)
    else Own(name)
  }

  predicate IsHook(name: string) { name == "_properties" || name == "_setters" }

  // ---------------------------------------------------------------- reading

  /** An attribute is missing, or indexing raises. */
  datatype Reading = Found(value: Value) | Missing | Raises

  /** `getattr(value, name)`. */
  function Attribute(v: Value, name: string): Reading {
    if v.Dict? && name == "_properties" then Found(v.hooks.properties)
    else if v.Dict? && name == "_setters" then Found(v.hooks.setters)
    else if v.Dict? && OwnAttribute(name) then Found(Own(name))
    else if v.Dict? && Name(name) in v.entries then Found(v.entries[Name(name)])
    else if !v.Dict? && HasOwn(v, name) then Found(OwnValue(v, name))
    else Missing
  }

  /** `value[index]`. */
  function Element(v: Value, i: nat): Reading {
    if IsDictionary(v) && Index(i) in v.entries then Found(v.entries[Index(i)])
    else if v.List? && i < |v.items| then Found(v.items[i])
    else if v.Str? && i < |v.text| then Found(Str([v.text[i]]))
    else Raises
  }

  function Child(v: Value, k: Key): Reading { if k.Name? then Attribute(v, k.name) else Element(v, k.index) }

  /** What a path reads, without defaults. */
  function Get(v: Value, keys: seq<Key>): Reading
    decreases |keys|
  {
    if keys == [] then Found(v)
    else
      var c := Child(v, keys[0]);
      if c.Found? then Get(c.value, keys[1..]) else c
  }

  /** The value without proxies: `_clean_value`. */
  function Clean(x: Value): Value {
    match x
    case List(items) => List(seq(|items|, i requires 0 <= i < |items| => Clean(items[i])))
    case Dict(entries, _) => Plain(map k | k in entries :: Clean(entries[k]))
    case Plain(entries) => Plain(map k | k in entries :: Clean(entries[k]))
    case _ => x
  }

  // ---------------------------------------------------------------- writing

  /** The value as the variables keep it: copied, with dictionaries of their own kind. */
  function Copy(x: Value): Value {
    match x
    case List(items) => List(seq(|items|, i requires 0 <= i < |items| => Copy(items[i])))
    case Dict(entries, _) => Dict(map k | k in entries :: Copy(entries[k]), EMPTY_HOOKS)
    case Plain(entries) => Dict(map k | k in entries :: Copy(entries[k]), EMPTY_HOOKS)
    case _ => x
  }

  /**
   * The tree after a write, and whether the write went through; one that raises half-way may leave something behind.
   */
  datatype Written = Written(tree: Value, ok: bool)

  predicate Within(part: string, text: string) { part <= text || (text != "" && Within(part, text[1..])) }

  /** Looking the key up among the setters, and calling what is found, raises. */
  predicate Refuses(setters: Value, k: Key) {
    match setters
    case Dict(entries, _) => k in entries
    case Plain(entries) => k in entries
    case List(items) =>
      if k.Name? then Str(k.name) in items else Int(k.index) in items || Float(k.index as real) in items
    case Str(text) => k.Index? || Within(k.name, text)
    case _ => true
  }

  /** There is nothing to compute after a write; anything but an empty dictionary raises. */
  predicate Quiet(properties: Value) { IsDictionary(properties) && properties.entries == map[] }

  predicate Accepts(d: Value, k: Key)
    requires d.Dict?
  {
    !Refuses(d.hooks.setters, k) && Quiet(d.hooks.properties)
  }

  /** `d[key] = x`: the setters come first, the properties last. */
  function StoreItem(d: Value, k: Key, x: Value): Written
    requires d.Dict?
  {
    if Refuses(d.hooks.setters, k) then Written(d, false)
    else Written(d.(entries := d.entries[k := Copy(x)]), Quiet(d.hooks.properties))
  }

  /** `setattr(value, name, x)`. */
  function SetAttribute(v: Value, name: string, x: Value): Written {
    if !v.Dict? then Written(v, false)
    else if name == "_properties" then Written(v.(hooks := v.hooks.(properties := x)), true)
    else if name == "_setters" then Written(v.(hooks := v.hooks.(setters := x)), true)
    else StoreItem(v, Name(name), x)
  }

  /** `value[index] = x`. */
  function SetElement(v: Value, i: nat, x: Value): Written {
    if v.Dict? then StoreItem(v, Index(i), x)
    else if v.Plain? then Written(Plain(v.entries[Index(i) := x]), true)
    else if v.List? && i < |v.items| then Written(List(v.items[i := Copy(x)]), true)
    else Written(v, false)
  }

  function Copied(entries: map<Key, Value>): map<Key, Value> { map k | k in entries :: Copy(entries[k]) }

  /** `existing.update(x)`. */
  function Update(existing: Value, x: Value): Written
    requires IsDictionary(existing) && IsDictionary(x)
  {
    if existing.Plain? then Written(Plain(existing.entries + x.entries), true)
    else if forall k :: k in x.entries ==> Accepts(existing, k) then
      Written(existing.(entries := existing.entries + Copied(x.entries)), true)
    else Written(existing, false)
  }

  /** The value with its child `k` changed in place to `y`. */
  function Replace(v: Value, k: Key, y: Value): Value {
    if v.Dict? && k == Name("_properties") then v.(hooks := v.hooks.(properties := y))
    else if v.Dict? && k == Name("_setters") then v.(hooks := v.hooks.(setters := y))
    else if v.Dict? then v.(entries := v.entries[k := y])
    else if v.Plain? then Plain(v.entries[k := y])
    else if v.List? && k.Index? && k.index < |v.items| then List(v.items[k.index := y])
    else v
  }

  /** The last key of a path: a dictionary of the variables is updated with a dictionary, all else is set. */
  function WriteLast(v: Value, k: Key, x: Value): Written {
    if k.Index? then SetElement(v, k.index, x)
    else
      var c := Attribute(v, k.name);
      if c.Found? && c.value.Dict? && IsDictionary(x) then
        var w := Update(c.value, x);
        Written(Replace(v, k, w.tree), w.ok)
      else SetAttribute(v, k.name, x)
  }

  /** The value after a walk went through key `k`, and the child it came to, if it did not raise. */
  datatype Opening = Opening(tree: Value, child: Option<Value>)

  /** A missing name becomes a dictionary. */
  function Open(v: Value, k: Key): Opening {
    var c := Child(v, k);
    if c.Found? then Opening(v, Some(c.value))
    else if k.Name? then
      var w := SetAttribute(v, k.name, EMPTY_DICT);
      Opening(w.tree, if w.ok then Some(Copy(EMPTY_DICT)) else None)
    else Opening(v, None)
  }

  /** `set_output_variables` below the root. Only a dictionary or a list can be written into. */
  function Put(v: Value, keys: seq<Key>, x: Value): Written
    requires keys != []
    decreases |keys|
  {
    if |keys| == 1 then WriteLast(v, keys[0], x)
    else
      var o := Open(v, keys[0]);
      if o.child.None? || !IsContainer(o.child.value) then Written(o.tree, false)
      else
        var w := Put(o.child.value, keys[1..], x);
        Written(Replace(o.tree, keys[0], w.tree), w.ok)
  }

  // ---------------------------------------------------------------- copying and cleaning

  lemma CleanCopyList(items: seq<Value>)
    requires forall i :: 0 <= i < |items| ==> Clean(Copy(items[i])) == Clean(items[i])
    ensures Clean(Copy(List(items))) == Clean(List(items))
  {
    assert Copy(List(items)).items == seq(|items|, i requires 0 <= i < |items| => Copy(items[i]));
  }

  lemma CleanCopyEntries(entries: map<Key, Value>)
    requires forall k :: k in entries ==> Clean(Copy(entries[k])) == Clean(entries[k])
    ensures Clean(Copy(Plain(entries))) == Clean(Plain(entries))
  {
    assert Copy(Plain(entries)).entries == map k | k in entries :: Copy(entries[k]);
  }

  lemma CleanCopyDict(entries: map<Key, Value>, hooks: Hooks)
    ensures Copy(Dict(entries, hooks)) == Copy(Plain(entries)) && Clean(Dict(entries, hooks)) == Clean(Plain(entries))
  {
  }

  /** What the variables keep of a value differs from it in proxies only. */
  lemma {:induction false} CleanCopy(x: Value)
    ensures Clean(Copy(x)) == Clean(x)
  {
    match x
    case List(items) =>
      hide Clean, Copy;
      forall i | 0 <= i < |items| ensures Clean(Copy(items[i])) == Clean(items[i]) {
        CleanCopy(items[i]);
      }
      CleanCopyList(items);
    case Dict(entries, hooks) =>
      hide Clean, Copy;
      forall k | k in entries ensures Clean(Copy(entries[k])) == Clean(entries[k]) {
        CleanCopy(entries[k]);
      }
      CleanCopyEntries(entries);
      CleanCopyDict(entries, hooks);
    case Plain(entries) =>
      hide Clean, Copy;
      forall k | k in entries ensures Clean(Copy(entries[k])) == Clean(entries[k]) {
        CleanCopy(entries[k]);
      }
      CleanCopyEntries(entries);
    case _ =>
  }

  /** What lookups by key and index find, attributes aside. */
  function Lookup(v: Value, keys: seq<Key>): Option<Value>
    decreases |keys|
  {
    if keys == [] then Some(v)
    else if IsDictionary(v) && keys[0] in v.entries then Lookup(v.entries[keys[0]], keys[1..])
    else if v.List? && keys[0].Index? && keys[0].index < |v.items| then Lookup(v.items[keys[0].index], keys[1..])
    else None
  }

  /** The same text, number or attribute; or a list as long, or a dictionary with the same keys. */
  predicate SameShape(x: Value, y: Value) {
    if x.List? then y.List? && |y.items| == |x.items|
    else if IsDictionary(x) then IsDictionary(y) && y.entries.Keys == x.entries.Keys
    else y == x
  }

  /** Cleaning leaves everything in its place, with plain dictionaries for the others. */
  lemma {:induction false} CleanKeepsPlaces(x: Value, keys: seq<Key>)
    ensures Lookup(Clean(x), keys).Some? <==> Lookup(x, keys).Some?
    ensures Lookup(x, keys).Some? ==>
              SameShape(Lookup(x, keys).value, Lookup(Clean(x), keys).value) && !Lookup(Clean(x), keys).value.Dict?
    decreases |keys|
  {
    if keys != [] {
      if IsDictionary(x) && keys[0] in x.entries {
        CleanKeepsPlaces(x.entries[keys[0]], keys[1..]);
      } else if x.List? && keys[0].Index? && keys[0].index < |x.items| {
        CleanKeepsPlaces(x.items[keys[0].index], keys[1..]);
      }
    }
  }

  /** So does the copy that the variables keep, with dictionaries of their own kind that have no hooks. */
  lemma {:induction false} CopyKeepsPlaces(x: Value, keys: seq<Key>)
    ensures Lookup(Copy(x), keys).Some? <==> Lookup(x, keys).Some?
    ensures Lookup(x, keys).Some? ==>
              var y := Lookup(Copy(x), keys).value;
              SameShape(Lookup(x, keys).value, y) && !y.Plain? && (y.Dict? ==> y.hooks == EMPTY_HOOKS)
    decreases |keys|
  {
    if keys != [] {
      if IsDictionary(x) && keys[0] in x.entries {
        CopyKeepsPlaces(x.entries[keys[0]], keys[1..]);
      } else if x.List? && keys[0].Index? && keys[0].index < |x.items| {
        CopyKeepsPlaces(x.items[keys[0].index], keys[1..]);
      }
    }
  }

  lemma CopyEmpty()
    ensures Copy(EMPTY_DICT) == EMPTY_DICT
  {
  }

  function Cleaned(entries: map<Key, Value>): map<Key, Value> { map k | k in entries :: Clean(entries[k]) }

  lemma CleanedUnion(a: map<Key, Value>, b: map<Key, Value>)
    ensures Cleaned(a + b) == Cleaned(a) + Cleaned(b)
  {
    hide Clean;
  }

  lemma CleanedCopies(entries: map<Key, Value>)
    ensures Cleaned(Copied(entries)) == Cleaned(entries)
  {
    hide Clean, Copy;
    forall k | k in entries ensures Clean(Copy(entries[k])) == Clean(entries[k]) {
      CleanCopy(entries[k]);
    }
  }

  lemma CleanEntries(v: Value)
    requires IsDictionary(v)
    ensures Clean(v) == Plain(Cleaned(v.entries))
  {
  }

  /** A dictionary updated with another, both cleaned. */
  lemma CleanUpdate(existing: Value, x: Value)
    requires IsDictionary(existing) && IsDictionary(x) && Update(existing, x).ok
    ensures Clean(Update(existing, x).tree) == Plain(Clean(existing).entries + Clean(x).entries)
  {
    hide Clean, Copy, Accepts, Cleaned, Copied;
    CleanEntries(existing);
    CleanEntries(x);
    CleanEntries(Update(existing, x).tree);
    CleanedUnion(existing.entries, x.entries);
    CleanedUnion(existing.entries, Copied(x.entries));
    CleanedCopies(x.entries);
  }

  // ---------------------------------------------------------------- what is written is read back

  // What the steps of a write leave of the other children, and of the child itself.

  lemma SameKindSameOwn(v: Value, w: Value, k: Key)
    requires (v.Plain? && w.Plain?) || (v.List? && w.List?)
    ensures k.Name? ==> HasOwn(v, k.name) == HasOwn(w, k.name)
  {
    hide DictAttribute, ListAttribute;
  }

  lemma ReplaceReads(v: Value, k: Key, y: Value, q: Key)
    requires Child(v, k).Found? && IsContainer(Child(v, k).value)
    ensures Child(Replace(v, k, y), k) == Found(y)
    ensures q != k ==> Child(Replace(v, k, y), q) == Child(v, q)
  {
    hide OwnAttribute, HasOwn;
    if !v.Dict? {
      SameKindSameOwn(v, Replace(v, k, y), q);
    }
  }

  lemma SetAttributeReads(v: Value, name: string, x: Value, q: Key)
    ensures var w := SetAttribute(v, name, x);
            && (q != Name(name) ==> Child(w.tree, q) == Child(v, q))
            && (w.ok && IsHook(name) ==> Child(w.tree, Name(name)) == Found(x))
            && (w.ok && !IsHook(name) && !OwnAttribute(name) ==> Child(w.tree, Name(name)) == Found(Copy(x)))
            && (w.ok && !IsHook(name) && OwnAttribute(name) ==> Child(w.tree, Name(name)) == Found(Own(name)))
  {
    hide Copy, Refuses, Quiet, OwnAttribute, HasOwn;
  }

  lemma SetElementReads(v: Value, i: nat, x: Value, q: Key)
    ensures var w := SetElement(v, i, x);
            && (q != Index(i) ==> Child(w.tree, q) == Child(v, q))
            && (w.ok ==> Child(w.tree, Index(i)) == Found(x) || Child(w.tree, Index(i)) == Found(Copy(x)))
  {
    hide Copy, Refuses, Quiet, OwnAttribute, HasOwn;
    if v.Plain? || v.List? {
      SameKindSameOwn(v, SetElement(v, i, x).tree, q);
    }
  }

  /** The dictionary of the variables that a write at the path would update, if there is one. */
  function Before(v: Value, keys: seq<Key>): Value
    requires keys != []
  {
    var r := Get(v, keys);
    if r.Found? && r.value.Dict? && keys[|keys| - 1].Name? then r.value else Null
  }

  /** The output, cleaned, or the old dictionary updated with it. */
  function Outcome(before: Value, x: Value): Value {
    if before.Dict? && IsDictionary(x) then Plain(Clean(before).entries + Clean(x).entries) else Clean(x)
  }

  /** The last key is a name that hides itself. */
  predicate HidesItself(keys: seq<Key>)
    requires keys != []
  {
    var k := keys[|keys| - 1];
    k.Name? && OwnAttribute(k.name)
  }

  /** The path reads the value, once that is cleaned. */
  predicate ReadsAs(v: Value, keys: seq<Key>, x: Value) { Get(v, keys).Found? && Clean(Get(v, keys).value) == x }

  lemma GetOne(v: Value, k: Key)
    ensures Get(v, [k]) == Child(v, k)
  {
    hide Child;
    assert [k][1..] == [];
  }

  lemma GetDeeper(v: Value, keys: seq<Key>, y: Value)
    requires |keys| > 1 && Child(v, keys[0]) == Found(y)
    ensures Get(v, keys) == Get(y, keys[1..])
  {
    hide Child;
  }

  lemma HooksAreNotOwn(name: string)
    ensures IsHook(name) ==> !OwnAttribute(name)
  {
  }

  lemma LastThenGet(v: Value, k: Key, x: Value)
    requires WriteLast(v, k, x).ok && !x.Own?
    ensures ReadsAs(WriteLast(v, k, x).tree, [k], Outcome(Before(v, [k]), x)) <==> !HidesItself([k])
    ensures HidesItself([k]) ==> Get(WriteLast(v, k, x).tree, [k]) == Found(Own(k.name))
  {
    hide Copy, Clean, SetAttribute, SetElement, OwnAttribute, HasOwn, Replace, Update;
    var t := WriteLast(v, k, x).tree;
    GetOne(v, k);
    GetOne(t, k);
    CleanCopy(x);
    CleanOwn(x);
    if k.Index? {
      SetElementReads(v, k.index, x, k);
    } else {
      SetAttributeReads(v, k.name, x, k);
      HooksAreNotOwn(k.name);
      var c := Attribute(v, k.name);
      if c.Found? && c.value.Dict? && IsDictionary(x) {
        ReplaceReads(v, k, Update(c.value, x).tree, k);
        CleanUpdate(c.value, x);
      }
    }
  }

  lemma CleanOwn(x: Value)
    ensures Clean(x).Own? ==> x.Own?
    ensures forall name :: Clean(Own(name)) == Own(name)
  {
  }

  /** What a dictionary just made has at any path is not a value somebody stored. */
  predicate NotStored(v: Value) { v.Own? || v == Plain(map[]) }

  lemma FreshReads(keys: seq<Key>)
    requires keys != []
    ensures Get(EMPTY_DICT, keys).Found? ==> NotStored(Get(EMPTY_DICT, keys).value)
  {
    hide OwnAttribute, HasOwn;
    var c := Child(EMPTY_DICT, keys[0]);
    assert c.Found? ==> NotStored(c.value);
    if c.Found? && |keys| > 1 {
      assert Child(c.value, keys[1]).Found? ==> Child(c.value, keys[1]).value.Own?;
      if Child(c.value, keys[1]).Found? {
        OwnReads(Child(c.value, keys[1]).value, keys[2..]);
        assert keys[1..][1..] == keys[2..];
      }
    }
  }

  lemma OwnReads(v: Value, keys: seq<Key>)
    requires v.Own?
    ensures Get(v, keys).Found? ==> Get(v, keys).value.Own?
    decreases |keys|
  {
    hide HasOwn;
    if keys != [] && Child(v, keys[0]).Found? {
      OwnReads(Child(v, keys[0]).value, keys[1..]);
    }
  }

  /** A walk reaches a container through its key, and leaves the other children alone. */
  lemma OpenReads(v: Value, k: Key, q: Key)
    ensures var o := Open(v, k);
            && (q != k ==> Child(o.tree, q) == Child(v, q))
            && (o.child.Some? ==> !(k.Name? && OwnAttribute(k.name)) ==> Child(o.tree, k) == Found(o.child.value))
            && (o.child.Some? && IsContainer(o.child.value) ==> !(k.Name? && OwnAttribute(k.name)))
            && (o.child.Some? ==>
                  Child(v, k) == Found(o.child.value) || (Child(v, k).Missing? && o.child.value == EMPTY_DICT))
            && (Child(v, k).Found? ==> o.tree == v && o.child == Some(Child(v, k).value))
            && (o.child.None? && Child(o.tree, k) != Child(v, k) ==>
                  Child(v, k).Missing? && Child(o.tree, k) == Found(EMPTY_DICT))
  {
    hide Copy, Refuses, Quiet, OwnAttribute, HasOwn;
    CopyEmpty();
    if k.Name? {
      HooksAreNotOwn(k.name);
      SetAttributeReads(v, k.name, EMPTY_DICT, q);
      SetAttributeReads(v, k.name, EMPTY_DICT, k);
    }
  }

  lemma BeforeDeeper(v: Value, keys: seq<Key>)
    requires |keys| > 1 && Open(v, keys[0]).child.Some?
    ensures Before(Open(v, keys[0]).child.value, keys[1..]) == Before(v, keys)
  {
    hide Child, Copy;
    OpenReads(v, keys[0], keys[0]);
    if Child(v, keys[0]).Missing? {
      FreshReads(keys[1..]);
    }
    hide Open, OwnAttribute;
  }

  /** A write that went through wrote into the child on the way, and what the path reads is read there. */
  lemma PutDeeper(v: Value, keys: seq<Key>, x: Value)
    requires |keys| > 1 && Put(v, keys, x).ok
    ensures Open(v, keys[0]).child.Some?
    ensures var w := Put(Open(v, keys[0]).child.value, keys[1..], x);
            w.ok && Get(Put(v, keys, x).tree, keys) == Get(w.tree, keys[1..])
  {
    hide Get, OwnAttribute, HasOwn, Replace, Open, Child;
    var k, o := keys[0], Open(v, keys[0]);
    var w := Put(o.child.value, keys[1..], x);
    OpenReads(v, k, k);
    ReplaceReads(o.tree, k, w.tree, k);
    GetDeeper(Put(v, keys, x).tree, keys, w.tree);
  }

  /**
   * What was written at a path is read back there, cleaned, updated if both old and new are dictionaries: exactly if
   * the last key is not a name of a dictionary's own attribute.
   */
  lemma {:induction false} PutThenGet(v: Value, keys: seq<Key>, x: Value)
    requires keys != [] && Put(v, keys, x).ok && !x.Own?
    ensures ReadsAs(Put(v, keys, x).tree, keys, Outcome(Before(v, keys), x)) <==> !HidesItself(keys)
    ensures HidesItself(keys) ==> Get(Put(v, keys, x).tree, keys) == Found(Own(keys[|keys| - 1].name))
    decreases |keys|
  {
    hide Put, Get, Copy, Clean, OwnAttribute, HasOwn, Open, Before, Outcome;
    if |keys| == 1 {
      assert keys == [keys[0]];
      LastIsPut(v, keys[0], x);
      LastThenGet(v, keys[0], x);
    } else {
      PutDeeper(v, keys, x);
      PutThenGet(Open(v, keys[0]).child.value, keys[1..], x);
      BeforeDeeper(v, keys);
      assert keys[1..][|keys| - 2] == keys[|keys| - 1];
    }
  }

  // ---------------------------------------------------------------- what hooks refuse

  predicate StandsAt(part: string, text: string, i: nat) {
    i + |part| <= |text| && text[i..i + |part|] == part
  }

  lemma {:induction false} WithinMeans(part: string, text: string)
    ensures Within(part, text) <==> exists i: nat :: StandsAt(part, text, i)
  {
    if part <= text {
      assert StandsAt(part, text, 0);
    } else if text != "" {
      WithinMeans(part, text[1..]);
      if i: nat :| StandsAt(part, text[1..], i) {
        assert StandsAt(part, text, i + 1);
      }
      if i: nat :| StandsAt(part, text, i) {
        assert i > 0 && StandsAt(part, text[1..], i - 1);
      }
    }
  }

  /**
   * Setters let a key pass only if they can be searched and do not hold it: a dictionary without the key, a list
   * without it, or a text that the name is no part of.
   */
  lemma {:induction false} RefusesMeans(setters: Value, k: Key)
    ensures !Refuses(setters, k) <==>
            || (IsDictionary(setters) && k !in setters.entries)
            || (setters.List? && k.Name? && Str(k.name) !in setters.items)
            || (setters.List? && k.Index? && Int(k.index) !in setters.items && Float(k.index as real) !in setters.items)
            || (setters.Str? && k.Name? && forall i: nat :: !StandsAt(k.name, setters.text, i))
  {
    if setters.Str? && k.Name? {
      WithinMeans(k.name, setters.text);
    }
  }

  /** Computing after a write goes through only where there is nothing to compute: an empty dictionary. */
  lemma QuietMeans(properties: Value)
    ensures Quiet(properties) <==> IsDictionary(properties) && forall k :: k !in properties.entries
  {
    if IsDictionary(properties) {
      assert (forall k :: k !in properties.entries) <==> properties.entries.Keys == {};
    }
  }

  /** A dictionary takes an update exactly if it takes every item of it, and then holds them over what it held. */
  lemma {:induction false} UpdateMeans(d: Value, x: Value)
    requires d.Dict? && IsDictionary(x)
    ensures Update(d, x).ok <==> forall k :: k in x.entries ==> StoreItem(d, k, x.entries[k]).ok
    ensures Update(d, x).ok ==>
              var t := Update(d, x).tree;
              && t.Dict? && t.hooks == d.hooks && t.entries.Keys == d.entries.Keys + x.entries.Keys
              && forall k :: k in t.entries ==>
                   t.entries[k] ==
                   if k in x.entries then StoreItem(d, k, x.entries[k]).tree.entries[k] else d.entries[k]
  {
    hide Copy, Refuses, Quiet;
  }

  /** A plain dictionary takes any update, as it is. */
  lemma PlainUpdates(d: Value, x: Value)
    requires d.Plain? && IsDictionary(x)
    ensures Update(d, x).ok && Update(d, x).tree.Plain? && Update(d, x).tree.entries == d.entries + x.entries
  {
  }

  /** The parts of a number are numbers. */
  lemma NumberParts(i: int, r: real)
    ensures Get(Int(i), [Name("real")]) == Found(Int(i)) && Get(Int(i), [Name("numerator")]) == Found(Int(i))
    ensures Get(Int(i), [Name("imag")]) == Found(Int(0)) && Get(Int(i), [Name("denominator")]) == Found(Int(1))
    ensures Get(Float(r), [Name("real")]) == Found(Float(r)) && Get(Float(r), [Name("imag")]) == Found(Float(0.0))
  {
    NumbersHave();
    hide HasOwn;
    GetOne(Int(i), Name("real"));
    GetOne(Int(i), Name("numerator"));
    GetOne(Int(i), Name("imag"));
    GetOne(Int(i), Name("denominator"));
    GetOne(Float(r), Name("real"));
    GetOne(Float(r), Name("imag"));
  }

  lemma NumbersHave()
    ensures forall i :: HasOwn(Int(i), "real") && HasOwn(Int(i), "numerator") && HasOwn(Int(i), "imag")
    ensures forall i :: HasOwn(Int(i), "denominator")
    ensures forall r :: HasOwn(Float(r), "real") && HasOwn(Float(r), "imag")
  {
  }

  // ---------------------------------------------------------------- which writes go through

  /** No dictionary of the variables has hooks. */
  predicate Hookless(v: Value) {
    match v
    case List(items) => forall i :: 0 <= i < |items| ==> Hookless(items[i])
    case Dict(entries, hooks) => hooks == EMPTY_HOOKS && forall k :: k in entries ==> Hookless(entries[k])
    case Plain(entries) => forall k :: k in entries ==> Hookless(entries[k])
    case _ => true
  }

  /**
   * The walk comes to a place that takes the last key: a dictionary takes any, a list an index it has. Where a name is
   * missing from a dictionary, the walk goes on in a new one, which has no elements.
   */
  predicate CanWrite(v: Value, keys: seq<Key>)
    requires keys != []
    decreases |keys|
  {
    if |keys| == 1 then
      if keys[0].Name? then v.Dict? else IsDictionary(v) || (v.List? && keys[0].index < |v.items|)
    else
      match Child(v, keys[0])
      case Found(c) => (c.Dict? || c.Plain? || c.List?) && CanWrite(c, keys[1..])
      case Missing => v.Dict? && CanWrite(EMPTY_DICT, keys[1..])
      case Raises => false
  }

  lemma HooklessChild(v: Value, k: Key)
    requires Hookless(v) && Child(v, k).Found? && IsContainer(Child(v, k).value)
    ensures Hookless(Child(v, k).value)
  {
    hide OwnAttribute, HasOwn;
  }

  /** Without hooks nothing refuses a key, and nothing is computed after a write. */
  lemma HooklessAccepts(v: Value, k: Key)
    requires v.Dict? && v.hooks == EMPTY_HOOKS
    ensures Accepts(v, k)
  {
  }

  lemma WriteLastOk(v: Value, k: Key, x: Value)
    requires Hookless(v)
    ensures WriteLast(v, k, x).ok <==> CanWrite(v, [k])
  {
    hide Copy, OwnAttribute, HasOwn, Replace, Accepts;
    if v.Dict? {
      HooklessAccepts(v, k);
      AcceptsMeans(v, k, x);
    }
    if k.Name? {
      var c := Attribute(v, k.name);
      if c.Found? && c.value.Dict? && IsDictionary(x) {
        HooklessChild(v, k);
        forall q | q in x.entries ensures Accepts(c.value, q) {
          HooklessAccepts(c.value, q);
        }
        AttributeOfDict(v, k.name);
      }
    }
  }

  lemma AcceptsMeans(v: Value, k: Key, x: Value)
    requires v.Dict?
    ensures StoreItem(v, k, x).ok <==> Accepts(v, k)
  {
    hide Copy;
  }

  /** Only a dictionary of the variables has a dictionary of the variables as an attribute. */
  lemma AttributeOfDict(v: Value, name: string)
    requires Attribute(v, name).Found? && Attribute(v, name).value.Dict?
    ensures v.Dict?
  {
    hide OwnAttribute, HasOwn;
  }

  /** Among variables without hooks, a write goes through exactly if the path can be written. */
  lemma {:induction false} PutGoesThrough(v: Value, keys: seq<Key>, x: Value)
    requires Hookless(v) && keys != []
    ensures Put(v, keys, x).ok <==> CanWrite(v, keys)
    decreases |keys|
  {
    hide Copy, WriteLast, OwnAttribute, HasOwn, Replace, Child, Open;
    if |keys| == 1 {
      assert keys == [keys[0]];
      WriteLastOk(v, keys[0], x);
    } else {
      var k, o := keys[0], Open(v, keys[0]);
      OpenReads(v, k, k);
      if Child(v, k).Found? {
        if IsContainer(Child(v, k).value) {
          HooklessChild(v, k);
          PutGoesThrough(Child(v, k).value, keys[1..], x);
        }
      } else if o.child.Some? {
        MissingOpens(v, k);
        PutGoesThrough(EMPTY_DICT, keys[1..], x);
      } else {
        MissingOpens(v, k);
      }
    }
  }

  /** A missing name of a dictionary is made, and nothing else. */
  lemma MissingOpens(v: Value, k: Key)
    requires Hookless(v) && !Child(v, k).Found?
    ensures Open(v, k).child == if Child(v, k).Missing? && v.Dict? then Some(EMPTY_DICT) else None
  {
    hide Copy, OwnAttribute, HasOwn, Accepts;
    CopyEmpty();
    if v.Dict? {
      HooklessAccepts(v, k);
      AcceptsMeans(v, k, EMPTY_DICT);
    }
  }

  lemma SomeNames()
    ensures OwnAttribute("items") && !OwnAttribute("__result__") && !OwnAttribute("a") && !OwnAttribute("b")
    ensures !OwnAttribute("movie")
  {
  }

  /** Writing a name into an empty dictionary stores a copy there. */
  lemma PutFresh(name: string, x: Value)
    requires !IsHook(name)
    ensures Put(EMPTY_DICT, [Name(name)], x) == Written(Dict(map[Name(name) := Copy(x)], EMPTY_HOOKS), true)
  {
    hide Copy, OwnAttribute, HasOwn;
  }

  /** The method of a dictionary hides an output written at its name; other names with underscores hide nothing. */
  lemma ItemsHidden(x: Value)
    ensures var w := Put(EMPTY_DICT, [Name("items")], x); w.ok && Get(w.tree, [Name("items")]) == Found(Own("items"))
    ensures var w := Put(EMPTY_DICT, [Name("__result__")], x);
            w.ok && Get(w.tree, [Name("__result__")]) == Found(Copy(x))
  {
    SomeNames();
    hide Copy, OwnAttribute, HasOwn, Put;
    PutFresh("items", x);
    PutFresh("__result__", x);
    GetOne(Put(EMPTY_DICT, [Name("items")], x).tree, Name("items"));
    GetOne(Put(EMPTY_DICT, [Name("__result__")], x).tree, Name("__result__"));
  }

  lemma LastIsPut(v: Value, k: Key, x: Value)
    ensures Put(v, [k], x) == WriteLast(v, k, x)
  {
    hide WriteLast;
  }

  /** A write at the name sets it: nothing there is updated instead. */
  predicate SetsName(d: Value, name: string, x: Value) {
    var c := Attribute(d, name);
    !(c.Found? && c.value.Dict? && IsDictionary(x))
  }

  /** A write at a name, key or hook, that updates nothing. */
  lemma PutName(d: Value, name: string, x: Value)
    requires d.Dict? && SetsName(d, name, x)
    ensures Put(d, [Name(name)], x) == SetAttribute(d, name, x)
  {
    hide OwnAttribute, SetAttribute;
    LastIsPut(d, Name(name), x);
  }

  /** `d` with what a write at `name` stores there. */
  function Stored(d: Value, name: string, x: Value): Value
    requires d.Dict?
  {
    d.(entries := d.entries[Name(name) := Copy(x)])
  }

  /**
   * A hook is read back as it is written. From then on, a write at any key that sets it raises exactly if the new
   * properties are more than an empty dictionary, after it stored its value; or if the new setters refuse the key,
   * before.
   */
  lemma {:induction false} HookReadBack(d: Value, x: Value, name: string, y: Value)
    requires d.Dict? && !IsHook(name) && SetsName(d, name, y)
    ensures SetsName(d, "_properties", x) ==>
              var t := d.(hooks := d.hooks.(properties := x));
              && Put(d, [Name("_properties")], x) == Written(t, true) && Get(t, [Name("_properties")]) == Found(x)
              && Put(t, [Name(name)], y) == if Refuses(d.hooks.setters, Name(name)) then Written(t, false)
                                            else Written(Stored(t, name, y), Quiet(x))
    ensures SetsName(d, "_setters", x) ==>
              var t := d.(hooks := d.hooks.(setters := x));
              && Put(d, [Name("_setters")], x) == Written(t, true) && Get(t, [Name("_setters")]) == Found(x)
              && Put(t, [Name(name)], y) == if Refuses(x, Name(name)) then Written(t, false)
                                            else Written(Stored(t, name, y), Quiet(d.hooks.properties))
  {
    hide OwnAttribute, Put, Get, Copy, Refuses, Quiet;
    if SetsName(d, "_properties", x) {
      var t := d.(hooks := d.hooks.(properties := x));
      PutName(d, "_properties", x);
      GetOne(t, Name("_properties"));
      PutName(t, name, y);
    }
    if SetsName(d, "_setters", x) {
      var t := d.(hooks := d.hooks.(setters := x));
      PutName(d, "_setters", x);
      GetOne(t, Name("_setters"));
      PutName(t, name, y);
    }
  }

  // ---------------------------------------------------------------- other paths

  /** Neither path leads through the other. */
  predicate Unrelated(p: seq<Key>, q: seq<Key>) { !(p <= q) && !(q <= p) }

  lemma UnrelatedTails(p: seq<Key>, q: seq<Key>)
    requires Unrelated(p, q)
    ensures p != [] && q != []
    ensures p[0] == q[0] ==> Unrelated(p[1..], q[1..])
  {
    if p[0] == q[0] {
      assert p == [p[0]] + p[1..] && q == [q[0]] + q[1..];
    }
  }

  lemma LastLeavesOthers(v: Value, k: Key, x: Value, q: Key)
    requires q != k
    ensures Child(WriteLast(v, k, x).tree, q) == Child(v, q)
  {
    hide Copy, Refuses, Quiet, OwnAttribute, HasOwn, Update, SetAttribute, SetElement, Replace;
    if k.Index? {
      SetElementReads(v, k.index, x, q);
    } else {
      SetAttributeReads(v, k.name, x, q);
      var c := Attribute(v, k.name);
      if c.Found? && c.value.Dict? && IsDictionary(x) {
        ReplaceReads(v, k, Update(c.value, x).tree, q);
      }
    }
  }

  /** Nothing a reader relies on changed: what was found is found, and nothing but an empty dictionary turned up. */
  predicate Kept(before: Reading, after: Reading) {
    if before.Found? then after == before else after.Found? ==> NotStored(after.value)
  }

  /**
   * What an unrelated path read before a write, also one that raises, it reads after; and no stored value turns up
   * there.
   */
  lemma {:induction false} OtherPathsKept(v: Value, p: seq<Key>, x: Value, q: seq<Key>)
    requires Unrelated(p, q)
    ensures p != []
    ensures Kept(Get(v, q), Get(Put(v, p, x).tree, q))
    decreases |p|
  {
    hide Copy, WriteLast, OwnAttribute, HasOwn, Replace, Open, Child;
    UnrelatedTails(p, q);
    var k := p[0];
    if |p| == 1 {
      LastLeavesOthers(v, k, x, q[0]);
    } else {
      var o := Open(v, k);
      OpenReads(v, k, q[0]);
      if o.child.None? || !IsContainer(o.child.value) {
        if q[0] == k {
          FreshReads(q[1..]);
        }
      } else {
        var w := Put(o.child.value, p[1..], x);
        ReplaceReads(o.tree, k, w.tree, q[0]);
        if q[0] == k {
          OtherPathsKept(o.child.value, p[1..], x, q[1..]);
          FreshReads(q[1..]);
        }
      }
    }
  }

  lemma GetTwo(v: Value, k: Key, q: Key)
    ensures Get(v, [k, q]) == if Child(v, k).Found? then Child(Child(v, k).value, q) else Child(v, k)
  {
    hide Child;
    assert [k, q][1..] == [q];
    if Child(v, k).Found? {
      GetOne(Child(v, k).value, q);
    }
  }

  /**
   * Reading past a name that is missing, and one that a write has made meanwhile: the second raises, the first does
   * not.
   */
  lemma MissingThenRaises()
    ensures var a, first := Name("a"), Index(0);
            && Get(EMPTY_DICT, [a, first]) == Missing
            && Get(Put(EMPTY_DICT, [a, Name("b")], Null).tree, [a, first]) == Raises
  {
    SomeNames();
    hide OwnAttribute, HasOwn;
    var a, b := Name("a"), Name("b");
    CopyEmpty();
    PutFresh("b", Null);
    assert [a, b][1..] == [b];
    var w := Put(EMPTY_DICT, [a, b], Null);
    assert Child(w.tree, a) == Found(Dict(map[b := Null], EMPTY_HOOKS));
    hide Put;
    GetTwo(EMPTY_DICT, a, Index(0));
    GetTwo(w.tree, a, Index(0));
  }

  // ---------------------------------------------------------------- the root

  /** One item of an output for the whole variables; a key must be a text. Here a plain dictionary is updated too. */
  function RootOne(v: Value, k: Key, x: Value): Written {
    if k.Index? then Written(v, false)
    else
      var c := Attribute(v, k.name);
      if c.Found? && IsDictionary(c.value) && IsDictionary(x) then
        var w := Update(c.value, x);
        Written(Replace(v, k, w.tree), w.ok)
      else SetAttribute(v, k.name, x)
  }

  datatype Item = Item(key: Key, value: Value)

  /** The items in order, until one raises. */
  function RootAll(v: Value, items: seq<Item>): Written {
    if items == [] then Written(v, true)
    else
      var w, last := RootAll(v, items[..|items| - 1]), items[|items| - 1];
      if w.ok then RootOne(w.tree, last.key, last.value) else w
  }

  /** The names of an output for the whole variables must be texts. */
  lemma {:induction false} RootNeedsNames(v: Value, items: seq<Item>)
    requires RootAll(v, items).ok
    ensures forall i :: 0 <= i < |items| ==> items[i].key.Name?
  {
    hide Update, SetAttribute, OwnAttribute, HasOwn, Replace;
    if items != [] {
      var init := items[..|items| - 1];
      RootNeedsNames(v, init);
      assert forall i :: 0 <= i < |init| ==> init[i] == items[i];
    }
  }

  /** `set_output_variables` at the root: the loop over the output's items. */
  method UpdateRoot(v: Value, items: seq<Item>) returns (w: Written)
    ensures w == RootAll(v, items)
  {
    hide RootOne;
    w := Written(v, true);
    for i := 0 to |items|
      invariant w == RootAll(v, items[..i])
    {
      assert items[..i + 1][..i] == items[..i];
      if w.ok {
        w := RootOne(w.tree, items[i].key, items[i].value);
      }
    }
    assert items[..|items|] == items;
  }

  // What an update of the whole variables comes to, key by key, when it leaves the hooks alone.

  predicate Updates(v: Value, k: Key, x: Value)
    requires v.Dict? && k.Name?
  {
    !OwnAttribute(k.name) && k in v.entries && IsDictionary(v.entries[k]) && IsDictionary(x)
  }

  function RootValue(v: Value, k: Key, x: Value): Value
    requires v.Dict? && k.Name?
  {
    if Updates(v, k, x) then Update(v.entries[k], x).tree else Copy(x)
  }

  predicate RootAccepts(v: Value, k: Key, x: Value)
    requires v.Dict? && k.Name?
  {
    if Updates(v, k, x) then Update(v.entries[k], x).ok else Accepts(v, k)
  }

  predicate PlainName(k: Key) { k.Name? && !IsHook(k.name) }

  predicate PlainNames(x: map<Key, Value>) { forall k :: k in x ==> PlainName(k) }

  function RootMerge(v: Value, x: map<Key, Value>): Value
    requires v.Dict? && PlainNames(x)
  {
    v.(entries := map k | k in v.entries.Keys + x.Keys :: if k in x then RootValue(v, k, x[k]) else v.entries[k])
  }

  predicate RootOk(v: Value, x: map<Key, Value>)
    requires v.Dict? && PlainNames(x)
  {
    forall k :: k in x ==> RootAccepts(v, k, x[k])
  }

  lemma RootOneIs(v: Value, k: Key, x: Value)
    requires v.Dict? && PlainName(k)
    ensures RootOne(v, k, x).ok <==> RootAccepts(v, k, x)
    ensures RootOne(v, k, x).ok ==> RootOne(v, k, x).tree == v.(entries := v.entries[k := RootValue(v, k, x)])
  {
    hide Copy, Refuses, Quiet, OwnAttribute, HasOwn, Update;
    HooksAreNotOwn(k.name);
  }

  /** Two dictionaries with the same hooks and the same entry at a key are updated alike there. */
  lemma RootLocal(u: Value, v: Value, k: Key, x: Value)
    requires u.Dict? && v.Dict? && k.Name? && u.hooks == v.hooks
    requires (k in u.entries <==> k in v.entries) && (k in v.entries ==> u.entries[k] == v.entries[k])
    ensures RootValue(u, k, x) == RootValue(v, k, x) && (RootAccepts(u, k, x) <==> RootAccepts(v, k, x))
  {
    hide Copy, OwnAttribute, Refuses, Quiet, Update;
  }

  function MapOf(items: seq<Item>): map<Key, Value> {
    if items == [] then map[] else MapOf(items[..|items| - 1])[items[|items| - 1].key := items[|items| - 1].value]
  }

  predicate DistinctNames(items: seq<Item>) {
    && (forall i :: 0 <= i < |items| ==> PlainName(items[i].key))
    && (forall i, j :: 0 <= i < j < |items| ==> items[i].key != items[j].key)
  }

  lemma {:induction false} MapOfItems(items: seq<Item>)
    requires DistinctNames(items)
    ensures PlainNames(MapOf(items))
    ensures forall k :: k in MapOf(items) <==> exists i :: 0 <= i < |items| && items[i].key == k
  {
    hide PlainName;
    if items != [] {
      var init, last := items[..|items| - 1], items[|items| - 1];
      MapOfItems(init);
      assert forall i :: 0 <= i < |init| ==> init[i] == items[i];
      assert last == items[|items| - 1];
      forall k ensures k in MapOf(items) <==> exists i :: 0 <= i < |items| && items[i].key == k {
        if k in MapOf(init) {
          var i :| 0 <= i < |init| && init[i].key == k;
          assert items[i].key == k;
        }
      }
    }
  }

  /** One more key updates the variables updated so far. */
  lemma RootMergeNext(v: Value, x: map<Key, Value>, k: Key, y: Value)
    requires v.Dict? && PlainNames(x) && PlainName(k) && k !in x && RootOk(v, x)
    ensures var u, more := RootMerge(v, x), x[k := y];
            && PlainNames(more)
            && (RootOne(u, k, y).ok <==> RootOk(v, more))
            && (RootOne(u, k, y).ok ==> RootOne(u, k, y).tree == RootMerge(v, more))
  {
    hide RootOne, RootValue, RootAccepts, PlainName;
    var u, more := RootMerge(v, x), x[k := y];
    assert PlainNames(more);
    assert k.Name? by { NameOf(k); }
    RootOneIs(u, k, y);
    RootLocal(u, v, k, y);
    assert more[k] == y && forall j :: j in x ==> more[j] == x[j];
    assert u.entries[k := RootValue(v, k, y)] == RootMerge(v, more).entries;
  }

  lemma NameOf(k: Key)
    requires PlainName(k)
    ensures k.Name?
  {
  }

  /** The loop updates key by key: its result, and whether it goes through, do not depend on the order of the items. */
  lemma {:induction false} RootAllIs(v: Value, items: seq<Item>)
    requires v.Dict? && DistinctNames(items)
    ensures PlainNames(MapOf(items))
    ensures RootAll(v, items).ok <==> RootOk(v, MapOf(items))
    ensures RootAll(v, items).ok ==> RootAll(v, items).tree == RootMerge(v, MapOf(items))
  {
    hide RootOne, RootOk, RootMerge, PlainName;
    MapOfItems(items);
    if items == [] {
      RootNothing(v);
    } else {
      var init, last := items[..|items| - 1], items[|items| - 1];
      assert DistinctNames(init) by {
        assert forall i :: 0 <= i < |init| ==> init[i] == items[i];
      }
      RootAllIs(v, init);
      MapOfItems(init);
      LastKeyNew(items);
      if RootAll(v, init).ok {
        RootMergeNext(v, MapOf(init), last.key, last.value);
      } else {
        RootOkInit(v, MapOf(init), last.key, last.value);
      }
    }
  }

  lemma LastKeyNew(items: seq<Item>)
    requires items != [] && DistinctNames(items)
    ensures items[|items| - 1].key !in MapOf(items[..|items| - 1])
  {
    hide PlainName, MapOf;
    var init := items[..|items| - 1];
    assert DistinctNames(init) by {
      assert forall i :: 0 <= i < |init| ==> init[i] == items[i];
    }
    MapOfItems(init);
    forall i | 0 <= i < |init| ensures init[i].key != items[|items| - 1].key {
      assert init[i] == items[i];
    }
  }

  lemma RootNothing(v: Value)
    requires v.Dict?
    ensures RootOk(v, map[]) && RootMerge(v, map[]) == v
  {
  }

  lemma RootOkInit(v: Value, x: map<Key, Value>, k: Key, y: Value)
    requires v.Dict? && PlainNames(x) && PlainName(k) && k !in x && !RootOk(v, x)
    ensures PlainNames(x[k := y]) && !RootOk(v, x[k := y])
  {
    hide RootAccepts;
    var j :| j in x && !RootAccepts(v, j, x[j]);
    assert x[k := y][j] == x[j];
  }

  /** The keys both updates write are names of dictionaries, and each update writes other keys inside. */
  predicate Apart(v: Value, a: map<Key, Value>, b: map<Key, Value>)
    requires v.Dict? && PlainNames(a) && PlainNames(b)
  {
    forall k :: k in a && k in b ==>
      Updates(v, k, a[k]) && v.entries[k].Dict? && IsDictionary(b[k]) && a[k].entries.Keys !! b[k].entries.Keys
  }

  lemma UpdatesCommute(e: Value, x: Value, y: Value)
    requires e.Dict? && IsDictionary(x) && IsDictionary(y) && x.entries.Keys !! y.entries.Keys
    requires Update(e, x).ok && Update(e, y).ok
    ensures Update(Update(e, x).tree, y).ok && Update(Update(e, y).tree, x).ok
    ensures Update(Update(e, x).tree, y).tree == Update(Update(e, y).tree, x).tree
  {
    hide Copy, Refuses, Quiet;
    var xs, ys := Copied(x.entries), Copied(y.entries);
    assert e.entries + xs + ys == e.entries + ys + xs;
  }

  lemma KeyCommutes(v: Value, a: map<Key, Value>, b: map<Key, Value>, k: Key)
    requires v.Dict? && PlainNames(a) && PlainNames(b) && Apart(v, a, b) && RootOk(v, a) && RootOk(v, b)
    requires k in v.entries || k in a || k in b
    ensures var u, w := RootMerge(v, a), RootMerge(v, b);
            && k in RootMerge(u, b).entries && k in RootMerge(w, a).entries
            && RootMerge(u, b).entries[k] == RootMerge(w, a).entries[k]
            && (k in b ==> RootAccepts(u, k, b[k])) && (k in a ==> RootAccepts(w, k, a[k]))
  {
    hide Copy, OwnAttribute, Update, Refuses, Quiet;
    var u, w := RootMerge(v, a), RootMerge(v, b);
    if k in a && k in b {
      UpdatesCommute(v.entries[k], a[k], b[k]);
      assert UpdatedDict(v.entries[k], a[k]) && UpdatedDict(v.entries[k], b[k]) by {
        StaysDict(v.entries[k], a[k]);
        StaysDict(v.entries[k], b[k]);
      }
    } else if k in b {
      RootLocal(u, v, k, b[k]);
    } else if k in a {
      RootLocal(w, v, k, a[k]);
    }
  }

  predicate UpdatedDict(e: Value, x: Value) { IsDictionary(e) && IsDictionary(x) && Update(e, x).tree.Dict? }

  lemma StaysDict(e: Value, x: Value)
    requires e.Dict? && IsDictionary(x)
    ensures UpdatedDict(e, x)
  {
  }

  lemma SecondGoesThrough(v: Value, a: map<Key, Value>, b: map<Key, Value>)
    requires v.Dict? && PlainNames(a) && PlainNames(b) && Apart(v, a, b) && RootOk(v, a) && RootOk(v, b)
    ensures RootOk(RootMerge(v, a), b)
  {
    hide RootAccepts, Apart, RootMerge;
    RootMergeDict(v, a);
    forall k | k in b ensures RootAccepts(RootMerge(v, a), k, b[k]) {
      KeyCommutes(v, a, b, k);
    }
  }

  lemma ApartBothWays(v: Value, a: map<Key, Value>, b: map<Key, Value>)
    requires v.Dict? && PlainNames(a) && PlainNames(b) && Apart(v, a, b)
    ensures Apart(v, b, a)
  {
    hide OwnAttribute;
  }

  lemma MergesCommute(v: Value, a: map<Key, Value>, b: map<Key, Value>)
    requires v.Dict? && PlainNames(a) && PlainNames(b) && Apart(v, a, b) && RootOk(v, a) && RootOk(v, b)
    ensures RootOk(RootMerge(v, a), b) && RootOk(RootMerge(v, b), a)
    ensures RootMerge(RootMerge(v, a), b) == RootMerge(RootMerge(v, b), a)
  {
    hide Apart, PlainNames, RootOk, RootValue;
    SecondGoesThrough(v, a, b);
    ApartBothWays(v, a, b);
    SecondGoesThrough(v, b, a);
    var keys := v.entries.Keys + a.Keys + b.Keys;
    var ab, ba := RootMerge(RootMerge(v, a), b), RootMerge(RootMerge(v, b), a);
    assert ab.entries.Keys == keys && ba.entries.Keys == keys && ab.hooks == ba.hooks;
    hide RootMerge;
    forall k | k in keys ensures ab.entries[k] == ba.entries[k] {
      KeyCommutes(v, a, b, k);
    }
    SameDict(ab, ba);
  }

  lemma SameDict(u: Value, w: Value)
    requires u.Dict? && w.Dict? && u.hooks == w.hooks && u.entries.Keys == w.entries.Keys
    requires forall k :: k in u.entries ==> u.entries[k] == w.entries[k]
    ensures u == w
  {
    assert u.entries == w.entries;
  }

  /**
   * Two root updates that write apart, as two sessions that save different chats, go through and give the same in
   * either order.
   */
  lemma RootMergesCommute(v: Value, a: seq<Item>, b: seq<Item>)
    requires v.Dict? && DistinctNames(a) && DistinctNames(b) && RootAll(v, a).ok && RootAll(v, b).ok
    requires PlainNames(MapOf(a)) && PlainNames(MapOf(b)) && Apart(v, MapOf(a), MapOf(b))
    ensures RootAll(RootAll(v, a).tree, b).ok && RootAll(RootAll(v, b).tree, a).ok
    ensures RootAll(RootAll(v, a).tree, b).tree == RootAll(RootAll(v, b).tree, a).tree
  {
    hide RootAll, Apart, RootOk, RootMerge, DistinctNames, MapOf, PlainNames;
    RootAllIs(v, a);
    RootAllIs(v, b);
    MergesCommute(v, MapOf(a), MapOf(b));
    RootMergeDict(v, MapOf(a));
    RootMergeDict(v, MapOf(b));
    RootAllIs(RootAll(v, a).tree, b);
    RootAllIs(RootAll(v, b).tree, a);
  }

  lemma RootMergeDict(v: Value, x: map<Key, Value>)
    requires v.Dict? && PlainNames(x)
    ensures RootMerge(v, x).Dict?
  {
  }

  // ---------------------------------------------------------------- mapping

  const NOT_FOUND := Str("not found")

  /** What a path of the input map gives before it is cleaned; `None` if it raises. */
  function MapFrom(v: Value, keys: seq<Key>, default: Option<Value>, setMissing: bool): Option<Value>
    decreases |keys|
  {
    if keys == [] then Some(v)
    else
      var c := Child(v, keys[0]);
      if c.Found? then MapFrom(c.value, keys[1..], default, setMissing)
      else if c.Raises? then None
      else if default.Some? then default
      else if setMissing then MapFrom(NOT_FOUND, keys[1..], default, setMissing)
      else Some(Null)
  }

  /** A path that is there gives its value, whatever the default; one that is missing gives the default or nothing. */
  lemma {:induction false} MapReads(v: Value, keys: seq<Key>, default: Option<Value>, setMissing: bool)
    ensures var r := Get(v, keys);
            && (r.Found? ==> MapFrom(v, keys, default, setMissing) == Some(r.value))
            && (r.Raises? ==> MapFrom(v, keys, default, setMissing) == None)
            && (r.Missing? && default.Some? ==> MapFrom(v, keys, default, setMissing) == default)
            && (r.Missing? && default.None? && !setMissing ==> MapFrom(v, keys, default, setMissing) == Some(Null))
            && (r.Missing? && default.None? && setMissing ==>
                  MapFrom(v, keys, default, setMissing) ==
                  MapFrom(NOT_FOUND, keys[FirstMissing(v, keys) + 1..], default, setMissing))
    decreases |keys|
  {
    hide Child;
    if keys != [] {
      if Child(v, keys[0]).Found? {
        MapReads(Child(v, keys[0]).value, keys[1..], default, setMissing);
        if Get(v, keys).Missing? {
          var n := FirstMissing(Child(v, keys[0]).value, keys[1..]);
          assert keys[1..][n + 1..] == keys[FirstMissing(v, keys) + 1..];
        }
      }
    }
  }

  /** The place of the first name that is missing. */
  function FirstMissing(v: Value, keys: seq<Key>): (n: nat)
    requires Get(v, keys).Missing?
    ensures n < |keys|
    decreases |keys|
  {
    var c := Child(v, keys[0]);
    if c.Found? then 1 + FirstMissing(c.value, keys[1..]) else 0
  }

  // What the walk makes of the keys behind a missing name, where it put the text "not found".

  /** Key `i` names an attribute of what the walk has come to: a text, or the attribute that the key before took. */
  predicate Takes(keys: seq<Key>, i: nat)
    requires i < |keys|
    decreases i
  {
    keys[i].Name? && if i > 0 && Takes(keys, i - 1) then MethodAttribute(keys[i].name) else TextAttribute(keys[i].name)
  }

  /** An index is in range: below 9 behind a name, 0 behind another index; an attribute has no elements. */
  predicate Fits(keys: seq<Key>, i: nat)
    requires i < |keys|
  {
    keys[i].Index? ==>
      keys[i].index < if i > 0 && keys[i - 1].Index? then 1 else if i > 0 && Takes(keys, i - 1) then 0 else 9
  }

  predicate AllFit(keys: seq<Key>) { forall i :: 0 <= i < |keys| ==> Fits(keys, i) }

  /** One letter of "not found". */
  predicate IsLetter(v: Value) { v.Str? && |v.text| == 1 && v.text[0] in NOT_FOUND.text }

  /** What the walk ends at: the last key is an index, or takes an attribute, or is missing as well. */
  predicate EndsAt(v: Value, keys: seq<Key>) {
    if keys == [] then v == NOT_FOUND
    else
      var n := |keys| - 1;
      if keys[n].Index? then IsLetter(v) else v == if Takes(keys, n) then Own(keys[n].name) else NOT_FOUND
  }

  lemma {:induction false} MapFromSplit(v: Value, a: seq<Key>, b: seq<Key>)
    ensures var r := MapFrom(v, a, None, true);
            MapFrom(v, a + b, None, true) == if r.None? then None else MapFrom(r.value, b, None, true)
    decreases |a|
  {
    hide Child;
    if a == [] {
      assert a + b == b;
    } else {
      assert (a + b)[1..] == a[1..] + b;
      var c := Child(v, a[0]);
      if !c.Raises? {
        MapFromSplit(if c.Found? then c.value else NOT_FOUND, a[1..], b);
      }
    }
  }

  lemma {:induction false} TakesBefore(keys: seq<Key>, n: nat, i: nat)
    requires i < n <= |keys|
    ensures Takes(keys[..n], i) <==> Takes(keys, i)
    ensures Fits(keys[..n], i) <==> Fits(keys, i)
    decreases i
  {
    if i > 0 {
      TakesBefore(keys, n, i - 1);
    }
  }

  lemma AllFitNext(keys: seq<Key>)
    requires keys != []
    ensures AllFit(keys) <==> AllFit(keys[..|keys| - 1]) && Fits(keys, |keys| - 1)
  {
    hide Fits, Takes;
    var n := |keys| - 1;
    forall i | 0 <= i < n ensures Fits(keys[..n], i) <==> Fits(keys, i) {
      TakesBefore(keys, n, i);
    }
  }

  lemma OneKey(v: Value, k: Key)
    ensures var c := Child(v, k);
            MapFrom(v, [k], None, true) == if c.Raises? then None else Some(if c.Found? then c.value else NOT_FOUND)
  {
    hide Child;
    assert [k][1..] == [];
  }

  lemma NextEnd(v: Value, keys: seq<Key>)
    requires keys != [] && EndsAt(v, keys[..|keys| - 1])
    ensures var r := MapFrom(v, [keys[|keys| - 1]], None, true);
            (r.Some? <==> Fits(keys, |keys| - 1)) && (r.Some? ==> EndsAt(r.value, keys))
  {
    hide TextAttribute, MethodAttribute;
    var n := |keys| - 1;
    OneKey(v, keys[n]);
    if n > 0 {
      assert keys[..n][n - 1] == keys[n - 1];
      TakesBefore(keys, n, n - 1);
    }
  }

  lemma {:induction false} BehindExactly(keys: seq<Key>)
    ensures var r := MapFrom(NOT_FOUND, keys, None, true);
            (r.Some? <==> AllFit(keys)) && (r.Some? ==> EndsAt(r.value, keys))
  {
    if keys != [] {
      var n := |keys| - 1;
      hide MapFrom, EndsAt, AllFit;
      BehindExactly(keys[..n]);
      assert keys == keys[..n] + [keys[n]];
      MapFromSplit(NOT_FOUND, keys[..n], [keys[n]]);
      AllFitNext(keys);
      var r := MapFrom(NOT_FOUND, keys[..n], None, true);
      if r.Some? {
        NextEnd(r.value, keys);
      }
    }
  }

  /**
   * Asked to fill in missing variables, a missing path raises exactly if an index behind the first missing name does
   * not fit. Else it gives "not found" exactly if nothing follows that name, or a name comes last that is no attribute
   * there; an attribute exactly if such a name comes last; and a letter exactly if an index comes last.
   */
  lemma {:induction false} NotFoundExactly(v: Value, keys: seq<Key>)
    requires Get(v, keys).Missing?
    ensures var rest := keys[FirstMissing(v, keys) + 1..];
            var n := |rest| - 1;
            var r := MapFrom(v, keys, None, true);
            && (r == None <==> !AllFit(rest))
            && (r == Some(NOT_FOUND) <==> AllFit(rest) && (rest == [] || (rest[n].Name? && !Takes(rest, n))))
            && (r.Some? && r.value.Own? <==> AllFit(rest) && rest != [] && Takes(rest, n))
            && (r.Some? && r.value.Own? ==> r.value.name == rest[n].name)
            && (r.Some? && IsLetter(r.value) <==> AllFit(rest) && rest != [] && rest[n].Index?)
  {
    hide Get, Child, MapFrom, FirstMissing, AllFit, TextAttribute, MethodAttribute;
    MapReads(v, keys, None, true);
    BehindExactly(keys[FirstMissing(v, keys) + 1..]);
  }

  lemma TextHasTitle()
    ensures TextAttribute("title")
  {
  }

  lemma MapMissing(name: string, k: Key)
    requires !OwnAttribute(name) && !IsHook(name)
    ensures MapFrom(EMPTY_DICT, [Name(name), k], None, true) == MapFrom(NOT_FOUND, [k], None, true)
  {
    hide OwnAttribute, HasOwn;
    assert [Name(name), k][1..] == [k];
  }

  /** With `movie` missing, `variables.movie.title` gives a method of the text "not found". */
  lemma NotFoundTitle()
    ensures MapFrom(EMPTY_DICT, [Name("movie"), Name("title")], None, true) == Some(Own("title"))
  {
    SomeNames();
    TextHasTitle();
    hide OwnAttribute, TextAttribute, MapFrom;
    MapMissing("movie", Name("title"));
    OneKey(NOT_FOUND, Name("title"));
  }

  /** A missing name with an index behind it gives a letter of "not found". */
  lemma NotFoundLetter()
    ensures MapFrom(EMPTY_DICT, [Name("a"), Index(0)], None, true) == Some(Str("n"))
  {
    SomeNames();
    hide OwnAttribute, MapFrom;
    MapMissing("a", Index(0));
    OneKey(NOT_FOUND, Index(0));
    assert Child(NOT_FOUND, Index(0)) == Found(Str("n"));
  }

  /** What `map_variables_to_input` gives for one path. */
  function MapPath(v: Value, keys: seq<Key>, default: Option<Value>, setMissing: bool): Option<Value> {
    var r := MapFrom(v, keys, default, setMissing);
    if r.None? then None else Some(Clean(r.value))
  }

  /**
   * Writing at a path and mapping it back gives the output, cleaned, or the updated dictionary if both are
   * dictionaries: exactly if the last key is not a name of a dictionary's own attribute.
   */
  lemma {:induction false} PutThenMap(v: Value, keys: seq<Key>, x: Value, default: Option<Value>, setMissing: bool)
    requires keys != [] && Put(v, keys, x).ok && !x.Own?
    ensures MapPath(Put(v, keys, x).tree, keys, default, setMissing) == Some(Outcome(Before(v, keys), x)) <==>
            !HidesItself(keys)
  {
    hide Put, MapFrom, Get, Before, Clean;
    PutThenGet(v, keys, x);
    MapReads(Put(v, keys, x).tree, keys, default, setMissing);
    CleanOwn(x);
    hide HidesItself;
  }

  /** The walk of `map_variables_to_input` over one path. */
  method MapVariable(variables: Value, keys: seq<Key>, default: Option<Value>, setMissing: bool)
    returns (r: Option<Value>)
    ensures r == MapPath(variables, keys, default, setMissing)
  {
    hide Child, Clean;
    var value := variables;
    var i := 0;
    assert keys[0..] == keys;
    while i < |keys|
      invariant i <= |keys|
      invariant MapFrom(value, keys[i..], default, setMissing) == MapFrom(variables, keys, default, setMissing)
    {
      assert keys[i..][1..] == keys[i + 1..];
      var c := Child(value, keys[i]);
      if c.Raises? {
        return None;
      } else if c.Found? {
        value := c.value;
      } else if default.Some? {
        value := default.value;
        return Some(Clean(value));
      } else if setMissing {
        value := NOT_FOUND;
      } else {
        value := Null;
        return Some(Clean(value));
      }
      i := i + 1;
    }
    return Some(Clean(value));
  }
}
