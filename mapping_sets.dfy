/**
 * The part of a Lorenz `MappingSet` that reading a mappings file builds:
 * class entries by obfuscated name, each holding field entries keyed by
 * name and optional descriptor, method entries keyed by name and
 * descriptor, and, per method, parameter entries keyed by local-variable
 * index. Every entry may carry a deobfuscated (target) name. The
 * `getOrCreate...` operations are insert-if-absent; entries are never
 * removed.
 */
module MappingSets {
  import opened Common

  datatype FieldSignature = FieldSignature(name: string, descriptor: Option<string>)

  datatype MethodSignature = MethodSignature(name: string, descriptor: string)

  datatype ParameterMapping = ParameterMapping(index: int, deobfuscatedName: Option<string>)

  datatype FieldMapping = FieldMapping(signature: FieldSignature, deobfuscatedName: Option<string>)

  datatype MethodMapping = MethodMapping(
    signature: MethodSignature,
    deobfuscatedName: Option<string>,
    parameters: map<int, ParameterMapping>)

  datatype ClassMapping = ClassMapping(
    obfuscatedName: string,
    deobfuscatedName: Option<string>,
    fields: map<FieldSignature, FieldMapping>,
    methods: map<MethodSignature, MethodMapping>)

  datatype MappingSet = MappingSet(classes: map<string, ClassMapping>)

  /** `MappingSet.create()`. */
  function EmptyMappingSet(): (ms: MappingSet)
    ensures ms.classes == map[]
  {
    MappingSet(map[])
  }

  /** The entry under `k` once it is present: the existing one, or else `initial`. */
  function InsertIfAbsent<K, V>(m: map<K, V>, k: K, initial: V): (r: map<K, V>)
    ensures r.Keys == m.Keys + {k}
    ensures k in m ==> r == m
    ensures k !in m ==> r[k] == initial
    ensures forall j :: j in m ==> r[j] == m[j]
  {
    if k in m then m else m[k := initial]
  }

  /** Inserting the same key twice is inserting it once. */
  lemma InsertIfAbsentIsIdempotent<K, V>(m: map<K, V>, k: K, initial: V, other: V)
    ensures InsertIfAbsent(InsertIfAbsent(m, k, initial), k, other) == InsertIfAbsent(m, k, initial)
  {
  }

  /** `getOrCreateClassMapping(name)`. */
  function GetOrCreateClass(ms: MappingSet, name: string): (r: MappingSet)
    ensures r.classes.Keys == ms.classes.Keys + {name}
    ensures name in ms.classes ==> r == ms
    ensures name !in ms.classes ==> r.classes[name] == ClassMapping(name, None, map[], map[])
    ensures forall c :: c in ms.classes ==> r.classes[c] == ms.classes[c]
    ensures Extends(r, ms)
  {
    MappingSet(InsertIfAbsent(ms.classes, name, ClassMapping(name, None, map[], map[])))
  }

  /** `getOrCreateFieldMapping` on the entry of class `cls`. */
  function GetOrCreateField(ms: MappingSet, cls: string, sig: FieldSignature): (r: MappingSet)
    requires cls in ms.classes
    ensures r.classes.Keys == ms.classes.Keys
    ensures r.classes[cls].fields.Keys == ms.classes[cls].fields.Keys + {sig}
    ensures sig in ms.classes[cls].fields ==> r == ms
    ensures sig !in ms.classes[cls].fields ==> r.classes[cls].fields[sig] == FieldMapping(sig, None)
    ensures forall c :: c in ms.classes && c != cls ==> r.classes[c] == ms.classes[c]
    ensures r.classes[cls].obfuscatedName == ms.classes[cls].obfuscatedName
    ensures r.classes[cls].deobfuscatedName == ms.classes[cls].deobfuscatedName
    ensures r.classes[cls].methods == ms.classes[cls].methods
    ensures forall f :: f in ms.classes[cls].fields ==> r.classes[cls].fields[f] == ms.classes[cls].fields[f]
    ensures Extends(r, ms)
  {
    var c := ms.classes[cls];
    MappingSet(ms.classes[cls := c.(fields := InsertIfAbsent(c.fields, sig, FieldMapping(sig, None)))])
  }

  /** `getOrCreateMethodMapping` on the entry of class `cls`. */
  function GetOrCreateMethod(ms: MappingSet, cls: string, sig: MethodSignature): (r: MappingSet)
    requires cls in ms.classes
    ensures r.classes.Keys == ms.classes.Keys
    ensures r.classes[cls].methods.Keys == ms.classes[cls].methods.Keys + {sig}
    ensures sig in ms.classes[cls].methods ==> r == ms
    ensures sig !in ms.classes[cls].methods ==> r.classes[cls].methods[sig] == MethodMapping(sig, None, map[])
    ensures forall c :: c in ms.classes && c != cls ==> r.classes[c] == ms.classes[c]
    ensures r.classes[cls].obfuscatedName == ms.classes[cls].obfuscatedName
    ensures r.classes[cls].deobfuscatedName == ms.classes[cls].deobfuscatedName
    ensures r.classes[cls].fields == ms.classes[cls].fields
    ensures forall m :: m in ms.classes[cls].methods ==> r.classes[cls].methods[m] == ms.classes[cls].methods[m]
    ensures Extends(r, ms)
  {
    var c := ms.classes[cls];
    MappingSet(ms.classes[cls := c.(methods := InsertIfAbsent(c.methods, sig, MethodMapping(sig, None, map[])))])
  }

  /** `getOrCreateParameterMapping(index)` on method `sig` of class `cls`. */
  function GetOrCreateParameter(ms: MappingSet, cls: string, sig: MethodSignature, index: int): (r: MappingSet)
    requires cls in ms.classes && sig in ms.classes[cls].methods
    ensures r.classes.Keys == ms.classes.Keys
    ensures r.classes[cls].methods.Keys == ms.classes[cls].methods.Keys
    ensures r.classes[cls].methods[sig].parameters.Keys == ms.classes[cls].methods[sig].parameters.Keys + {index}
    ensures index in ms.classes[cls].methods[sig].parameters ==> r == ms
    ensures index !in ms.classes[cls].methods[sig].parameters ==>
      r.classes[cls].methods[sig].parameters[index] == ParameterMapping(index, None)
    ensures forall c :: c in ms.classes && c != cls ==> r.classes[c] == ms.classes[c]
    ensures r.classes[cls].obfuscatedName == ms.classes[cls].obfuscatedName
    ensures r.classes[cls].deobfuscatedName == ms.classes[cls].deobfuscatedName
    ensures r.classes[cls].fields == ms.classes[cls].fields
    ensures forall m :: m in ms.classes[cls].methods && m != sig ==> r.classes[cls].methods[m] == ms.classes[cls].methods[m]
    ensures r.classes[cls].methods[sig].signature == ms.classes[cls].methods[sig].signature
    ensures r.classes[cls].methods[sig].deobfuscatedName == ms.classes[cls].methods[sig].deobfuscatedName
    ensures forall i :: i in ms.classes[cls].methods[sig].parameters ==>
      r.classes[cls].methods[sig].parameters[i] == ms.classes[cls].methods[sig].parameters[i]
    ensures Extends(r, ms)
  {
    var c := ms.classes[cls];
    var m := c.methods[sig];
    if index in m.parameters then ms
    else MappingSet(ms.classes[cls := c.(methods := c.methods[sig := m.(parameters := m.parameters[index := ParameterMapping(index, None)])])])
  }

  /** `setDeobfuscatedName` on a class entry. */
  function SetClassName(ms: MappingSet, cls: string, name: string): (r: MappingSet)
    requires cls in ms.classes
    ensures r.classes == ms.classes[cls := ms.classes[cls].(deobfuscatedName := Some(name))]
    ensures Extends(r, ms)
  {
    MappingSet(ms.classes[cls := ms.classes[cls].(deobfuscatedName := Some(name))])
  }

  /** `setDeobfuscatedName` on a field entry. */
  function SetFieldName(ms: MappingSet, cls: string, sig: FieldSignature, name: string): (r: MappingSet)
    requires cls in ms.classes && sig in ms.classes[cls].fields
    ensures r.classes.Keys == ms.classes.Keys
    ensures forall c :: c in ms.classes && c != cls ==> r.classes[c] == ms.classes[c]
    ensures r.classes[cls] == ms.classes[cls].(fields := ms.classes[cls].fields[sig := ms.classes[cls].fields[sig].(deobfuscatedName := Some(name))])
    ensures Extends(r, ms)
  {
    var c := ms.classes[cls];
    MappingSet(ms.classes[cls := c.(fields := c.fields[sig := c.fields[sig].(deobfuscatedName := Some(name))])])
  }

  /** `setDeobfuscatedName` on a method entry. */
  function SetMethodName(ms: MappingSet, cls: string, sig: MethodSignature, name: string): (r: MappingSet)
    requires cls in ms.classes && sig in ms.classes[cls].methods
    ensures r.classes.Keys == ms.classes.Keys
    ensures forall c :: c in ms.classes && c != cls ==> r.classes[c] == ms.classes[c]
    ensures r.classes[cls] == ms.classes[cls].(methods := ms.classes[cls].methods[sig := ms.classes[cls].methods[sig].(deobfuscatedName := Some(name))])
    ensures Extends(r, ms)
  {
    var c := ms.classes[cls];
    MappingSet(ms.classes[cls := c.(methods := c.methods[sig := c.methods[sig].(deobfuscatedName := Some(name))])])
  }

  /** `setDeobfuscatedName` on a parameter entry. */
  function SetParameterName(ms: MappingSet, cls: string, sig: MethodSignature, index: int, name: string): (r: MappingSet)
    requires cls in ms.classes && sig in ms.classes[cls].methods && index in ms.classes[cls].methods[sig].parameters
    ensures r.classes.Keys == ms.classes.Keys
    ensures forall c :: c in ms.classes && c != cls ==> r.classes[c] == ms.classes[c]
    ensures r.classes[cls].fields == ms.classes[cls].fields
    ensures r.classes[cls].methods.Keys == ms.classes[cls].methods.Keys
    ensures forall s :: s in ms.classes[cls].methods && s != sig ==> r.classes[cls].methods[s] == ms.classes[cls].methods[s]
    ensures r.classes[cls].methods[sig] == ms.classes[cls].methods[sig].(parameters :=
      ms.classes[cls].methods[sig].parameters[index := ms.classes[cls].methods[sig].parameters[index].(deobfuscatedName := Some(name))])
    ensures Extends(r, ms)
  {
    var c := ms.classes[cls];
    var m := c.methods[sig];
    var m' := m.(parameters := m.parameters[index := m.parameters[index].(deobfuscatedName := Some(name))]);
    MappingSet(ms.classes[cls := c.(methods := c.methods[sig := m'])])
  }

  /** Every entry of `before`, down to parameters, is still present in `after`. */
  ghost predicate Extends(after: MappingSet, before: MappingSet) {
    forall c :: c in before.classes ==> c in after.classes && ClassExtends(after.classes[c], before.classes[c])
  }

  ghost predicate ClassExtends(after: ClassMapping, before: ClassMapping) {
    && before.fields.Keys <= after.fields.Keys
    && forall m :: m in before.methods ==>
      m in after.methods && before.methods[m].parameters.Keys <= after.methods[m].parameters.Keys
  }

  lemma ExtendsIsTransitive(a: MappingSet, b: MappingSet, c: MappingSet)
    requires Extends(b, a) && Extends(c, b)
    ensures Extends(c, a)
  {
  }

  lemma ExtendsIsReflexive(a: MappingSet)
    ensures Extends(a, a)
  {
  }
}
