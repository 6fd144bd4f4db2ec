/**
 * `readMappings` (main.kt): the mapping-io visitor that turns the callbacks
 * of a mappings reader into a `MappingSet`. The visitor keeps a target
 * namespace index and four cursors (the class, field, method and parameter
 * entry being read); each callback moves the cursors, get-or-creates
 * entries, or stores a target name through a cursor. A thrown
 * `MappingsReadException` is a `Failure`.
 *
 * A cursor is modelled by the key path of the entry it points to; since
 * entries are never removed, the path keeps naming the same entry.
 */
module ReadMappings {
  import opened Common
  import opened MappingSets

  datatype MappedElementKind = ClassKind | FieldKind | MethodKind | MethodArgKind | MethodVarKind

  /** The reader flags a visitor can ask for; this visitor asks only for source method descriptors. */
  datatype MappingFlag = NeedsSrcMethodDesc

  /** The distinct `MappingsReadException`s, with the values their messages mention. */
  datatype MappingsReadError =
    | AmbiguousTargetNamespace(candidates: seq<string>)
    | TargetNamespaceNotFound(available: seq<string>)
    | NoOwningClassForField(fieldName: string, fieldDescriptor: Option<string>)
    | NoSourceDescriptor(ownerName: Option<string>, methodName: string)
    | NoOwningClassForMethod(ownerlessMethod: string, ownerlessDescriptor: string)
    | NoOwningMethod(lvIndex: int, parameterName: Option<string>)
    | NoSourceName(kind: MappedElementKind, ownerName: Option<string>, ownerMethodName: Option<string>, targetName: string)

  /** The visitor's fields. */
  datatype VisitorState = VisitorState(
    targetNs: int,
    result: MappingSet,
    currentClass: Option<string>,
    currentField: Option<FieldSignature>,
    currentMethod: Option<MethodSignature>,
    currentParameter: Option<int>)

  /** What a callback returns and the visitor's fields afterwards. */
  datatype Visited<T> = Visited(outcome: Result<T, MappingsReadError>, state: VisitorState)

  function InitialState(): (s: VisitorState)
    ensures CursorsValid(s)
  {
    VisitorState(0, EmptyMappingSet(), None, None, None, None)
  }

  /**
   * The cursors point at entries of `result`: a field or method of the
   * current class, a parameter of the current method; a field and a method
   * are never current together.
   */
  predicate CursorsValid(s: VisitorState) {
    && (s.currentClass.Some? ==> s.currentClass.value in s.result.classes)
    && (s.currentField.Some? ==> s.currentClass.Some? && FieldPresent(s))
    && (s.currentMethod.Some? ==> s.currentClass.Some? && MethodPresent(s))
    && (s.currentParameter.Some? ==> s.currentMethod.Some? && ParameterPresent(s))
    && !(s.currentField.Some? && s.currentMethod.Some?)
  }

  predicate FieldPresent(s: VisitorState)
    requires s.currentClass.Some? && s.currentField.Some?
  {
    s.currentClass.value in s.result.classes && s.currentField.value in s.result.classes[s.currentClass.value].fields
  }

  predicate MethodPresent(s: VisitorState)
    requires s.currentClass.Some? && s.currentMethod.Some?
  {
    s.currentClass.value in s.result.classes && s.currentMethod.value in s.result.classes[s.currentClass.value].methods
  }

  predicate ParameterPresent(s: VisitorState)
    requires s.currentClass.Some? && s.currentMethod.Some? && s.currentParameter.Some?
  {
    MethodPresent(s) && s.currentParameter.value in s.result.classes[s.currentClass.value].methods[s.currentMethod.value].parameters
  }

  /** Growing the mapping set keeps the cursors pointing at entries. */
  lemma ExtendsKeepsCursors(s: VisitorState, after: MappingSet)
    requires CursorsValid(s) && Extends(after, s.result)
    ensures CursorsValid(s.(result := after))
  {
  }

  /**
   * The name an entry's `deobfuscatedName` reports: its target name, or its
   * source name while no target name was set (Lorenz creates entries with
   * the source name as their target name).
   */
  function ReportedName(obfuscatedName: string, deobfuscatedName: Option<string>): (r: string)
    ensures deobfuscatedName.Some? ==> r == deobfuscatedName.value
    ensures deobfuscatedName.None? ==> r == obfuscatedName
  {
    if deobfuscatedName.Some? then deobfuscatedName.value else obfuscatedName
  }

  /** `currentClass?.deobfuscatedName`. */
  function CurrentClassName(s: VisitorState): Option<string> {
    if s.currentClass.Some? && s.currentClass.value in s.result.classes then
      var c := s.result.classes[s.currentClass.value];
      Some(ReportedName(c.obfuscatedName, c.deobfuscatedName))
    else None
  }

  /** `currentMethod?.deobfuscatedName`. */
  function CurrentMethodName(s: VisitorState): Option<string> {
    if s.currentClass.Some? && s.currentMethod.Some? && MethodPresent(s) then
      var m := s.result.classes[s.currentClass.value].methods[s.currentMethod.value];
      Some(ReportedName(m.signature.name, m.deobfuscatedName))
    else None
  }

  /**
   * The exception `visitDstName` throws when the cursor of `kind` is null,
   * with the names its message mentions: none besides the target name for a
   * class, the current class's for a field or method, and the current
   * class's and method's for a parameter.
   */
  function NoSourceNameError(s: VisitorState, kind: MappedElementKind, name: string): (e: MappingsReadError)
    ensures e.NoSourceName? && e.kind == kind && e.targetName == name
    ensures e.ownerName == (if kind == ClassKind then None else CurrentClassName(s))
    ensures e.ownerMethodName == (if kind == MethodArgKind then CurrentMethodName(s) else None)
  {
    match kind
    case ClassKind => NoSourceName(kind, None, None, name)
    case MethodArgKind => NoSourceName(kind, CurrentClassName(s), CurrentMethodName(s), name)
    case _ => NoSourceName(kind, CurrentClassName(s), None, name)
  }

  /** `List.indexOf`: the first position of `x`, or -1. */
  function IndexOf(xs: seq<string>, x: string): (r: int)
    ensures -1 <= r < |xs|
    ensures r == -1 <==> x !in xs
    ensures r != -1 ==> xs[r] == x && forall j :: 0 <= j < r ==> xs[j] != x
  {
    if xs == [] then -1
    else if xs[0] == x then 0
    else
      var i := IndexOf(xs[1..], x);
      if i == -1 then -1 else i + 1
  }

  /** `visitNamespaces`, for the `targetNamespace` argument of `readMappings`. */
  function OnNamespaces(s: VisitorState, targetNamespace: Option<string>, srcNamespace: string, dstNamespaces: seq<string>): (v: Visited<()>)
    ensures v.state == s.(targetNs := v.state.targetNs)
  {
    if targetNamespace.None? then
      if |dstNamespaces| != 1 then Visited(Failure(AmbiguousTargetNamespace(dstNamespaces)), s)
      else Visited(Success(()), s)
    else
      var ns := IndexOf(dstNamespaces, targetNamespace.value);
      Visited(if ns == -1 then Failure(TargetNamespaceNotFound(dstNamespaces)) else Success(()), s.(targetNs := ns))
  }

  /** `visitClass` (which always returns true). */
  function OnClass(s: VisitorState, srcName: string): (v: VisitorState)
    ensures v.targetNs == s.targetNs
    ensures srcName in v.result.classes && Extends(v.result, s.result)
    ensures v.currentClass == Some(srcName)
    ensures v.currentField.None? && v.currentMethod.None? && v.currentParameter.None?
    ensures CursorsValid(v)
  {
    VisitorState(s.targetNs, GetOrCreateClass(s.result, srcName), Some(srcName), None, None, None)
  }

  /** `visitField`. */
  function OnField(s: VisitorState, srcName: string, srcDesc: Option<string>): (v: Visited<bool>)
    requires CursorsValid(s)
    ensures CursorsValid(v.state) && Extends(v.state.result, s.result)
  {
    if s.currentClass.None? then Visited(Failure(NoOwningClassForField(srcName, srcDesc)), s)
    else
      var sig := FieldSignature(srcName, srcDesc);
      var result := GetOrCreateField(s.result, s.currentClass.value, sig);
      ExtendsKeepsCursors(s, result);
      Visited(Success(true), s.(result := result, currentField := Some(sig), currentMethod := None, currentParameter := None))
  }

  /** `visitMethod`: the missing descriptor is checked first, the field cursor cleared before the owner is. */
  function OnMethod(s: VisitorState, srcName: string, srcDesc: Option<string>): (v: Visited<bool>)
    requires CursorsValid(s)
    ensures CursorsValid(v.state) && Extends(v.state.result, s.result)
  {
    if srcDesc.None? then Visited(Failure(NoSourceDescriptor(CurrentClassName(s), srcName)), s)
    else if s.currentClass.None? then Visited(Failure(NoOwningClassForMethod(srcName, srcDesc.value)), s.(currentField := None))
    else
      var sig := MethodSignature(srcName, srcDesc.value);
      var result := GetOrCreateMethod(s.result, s.currentClass.value, sig);
      ExtendsKeepsCursors(s, result);
      Visited(Success(true), s.(result := result, currentField := None, currentMethod := Some(sig), currentParameter := None))
  }

  /** `visitMethodArg`. */
  function OnMethodArg(s: VisitorState, argPosition: int, lvIndex: int, srcName: Option<string>): (v: Visited<bool>)
    requires CursorsValid(s)
    ensures CursorsValid(v.state) && Extends(v.state.result, s.result)
  {
    if s.currentMethod.None? then Visited(Failure(NoOwningMethod(lvIndex, srcName)), s)
    else
      var result := GetOrCreateParameter(s.result, s.currentClass.value, s.currentMethod.value, lvIndex);
      ExtendsKeepsCursors(s, result);
      Visited(Success(true), s.(result := result, currentParameter := Some(lvIndex)))
  }

  /** `visitDstName`. */
  function OnDstName(s: VisitorState, kind: MappedElementKind, namespace: int, name: string): (v: Visited<()>)
    requires CursorsValid(s)
    ensures CursorsValid(v.state) && Extends(v.state.result, s.result)
    ensures v.state == s.(result := v.state.result)
  {
    if namespace != s.targetNs then Visited(Success(()), s)
    else
      match kind
      case ClassKind =>
        if s.currentClass.None? then Visited(Failure(NoSourceNameError(s, kind, name)), s)
        else
          var result := SetClassName(s.result, s.currentClass.value, name);
          ExtendsKeepsCursors(s, result);
          Visited(Success(()), s.(result := result))
      case FieldKind =>
        if s.currentField.None? then Visited(Failure(NoSourceNameError(s, kind, name)), s)
        else
          var result := SetFieldName(s.result, s.currentClass.value, s.currentField.value, name);
          ExtendsKeepsCursors(s, result);
          Visited(Success(()), s.(result := result))
      case MethodKind =>
        if s.currentMethod.None? then Visited(Failure(NoSourceNameError(s, kind, name)), s)
        else
          var result := SetMethodName(s.result, s.currentClass.value, s.currentMethod.value, name);
          ExtendsKeepsCursors(s, result);
          Visited(Success(()), s.(result := result))
      case MethodArgKind =>
        if s.currentParameter.None? then Visited(Failure(NoSourceNameError(s, kind, name)), s)
        else
          var result := SetParameterName(s.result, s.currentClass.value, s.currentMethod.value, s.currentParameter.value, name);
          ExtendsKeepsCursors(s, result);
          Visited(Success(()), s.(result := result))
      case MethodVarKind => Visited(Success(()), s)
  }

  /** The target name stored in the entry that the cursor for `kind` points at; None when that cursor is null. */
  function ElementName(s: VisitorState, kind: MappedElementKind): Option<Option<string>>
    requires CursorsValid(s)
  {
    match kind
    case ClassKind =>
      if s.currentClass.None? then None else Some(s.result.classes[s.currentClass.value].deobfuscatedName)
    case FieldKind =>
      if s.currentField.None? then None
      else Some(s.result.classes[s.currentClass.value].fields[s.currentField.value].deobfuscatedName)
    case MethodKind =>
      if s.currentMethod.None? then None
      else Some(s.result.classes[s.currentClass.value].methods[s.currentMethod.value].deobfuscatedName)
    case MethodArgKind =>
      if s.currentParameter.None? then None
      else Some(s.result.classes[s.currentClass.value].methods[s.currentMethod.value].parameters[s.currentParameter.value].deobfuscatedName)
    case MethodVarKind => None
  }

  // ---------------------------------------------------------------------------
  // Properties of the callbacks
  // ---------------------------------------------------------------------------

  /** Without a requested target, exactly one destination namespace is accepted, and it is index 0. */
  lemma NamespacesWithoutTarget(s: VisitorState, srcNamespace: string, dstNamespaces: seq<string>)
    ensures var v := OnNamespaces(s, None, srcNamespace, dstNamespaces);
      && (v.outcome.Success? <==> |dstNamespaces| == 1)
      && (v.outcome.Failure? ==> v.outcome.error == AmbiguousTargetNamespace(dstNamespaces))
      && v.state == s
  {
  }

  /**
   * With a requested target, the target index becomes its first position in
   * the destination list; a target not in the list is an error (and the
   * index is left at -1).
   */
  lemma NamespacesWithTarget(s: VisitorState, target: string, srcNamespace: string, dstNamespaces: seq<string>)
    ensures var v := OnNamespaces(s, Some(target), srcNamespace, dstNamespaces);
      && (v.outcome.Success? <==> target in dstNamespaces)
      && (v.outcome.Success? ==>
            0 <= v.state.targetNs < |dstNamespaces| && dstNamespaces[v.state.targetNs] == target
            && forall j :: 0 <= j < v.state.targetNs ==> dstNamespaces[j] != target)
      && (v.outcome.Failure? ==> v.outcome.error == TargetNamespaceNotFound(dstNamespaces) && v.state.targetNs == -1)
  {
  }

  /** Visiting a class again finds the same entry: the second visit changes nothing. */
  lemma ClassVisitIsIdempotent(s: VisitorState, srcName: string)
    ensures OnClass(OnClass(s, srcName), srcName) == OnClass(s, srcName)
    ensures srcName in s.result.classes ==> OnClass(s, srcName).result == s.result
  {
  }

  /**
   * Visiting a class, field, method or parameter only adds entries: every
   * class keeps the target name stored for it earlier, and so does every
   * existing field and method.
   */
  lemma EntryVisitsKeepTargetNames(s: VisitorState, name: string, desc: Option<string>, c: string)
    requires CursorsValid(s) && c in s.result.classes
    ensures OnClass(s, name).result.classes[c] == s.result.classes[c]
    ensures OnField(s, name, desc).state.result.classes[c].deobfuscatedName == s.result.classes[c].deobfuscatedName
    ensures forall f :: f in s.result.classes[c].fields ==>
      OnField(s, name, desc).state.result.classes[c].fields[f] == s.result.classes[c].fields[f]
  {
  }

  /** The same for method visits. */
  lemma MemberVisitsKeepTargetNames(s: VisitorState, name: string, desc: Option<string>, c: string)
    requires CursorsValid(s) && c in s.result.classes
    ensures OnMethod(s, name, desc).state.result.classes[c].deobfuscatedName == s.result.classes[c].deobfuscatedName
    ensures forall m :: m in s.result.classes[c].methods ==>
      OnMethod(s, name, desc).state.result.classes[c].methods[m] == s.result.classes[c].methods[m]
  {
  }

  /** The same for parameter visits. */
  lemma ParameterVisitsKeepTargetNames(s: VisitorState, lvIndex: int, argName: Option<string>, c: string)
    requires CursorsValid(s) && c in s.result.classes
    ensures OnMethodArg(s, 0, lvIndex, argName).state.result.classes[c].deobfuscatedName == s.result.classes[c].deobfuscatedName
    ensures forall m :: m in s.result.classes[c].methods ==>
      OnMethodArg(s, 0, lvIndex, argName).state.result.classes[c].methods[m].deobfuscatedName
        == s.result.classes[c].methods[m].deobfuscatedName
  {
  }

  /**
   * `visitField` fails exactly when no class is current, changing nothing;
   * otherwise the field is keyed by its name and the descriptor only when
   * one is given, and the method and parameter cursors are cleared.
   */
  lemma FieldNeedsOwner(s: VisitorState, srcName: string, srcDesc: Option<string>)
    requires CursorsValid(s)
    ensures var v := OnField(s, srcName, srcDesc);
      && (v.outcome.Failure? <==> s.currentClass.None?)
      && (v.outcome.Failure? ==> v.state == s && v.outcome.error == NoOwningClassForField(srcName, srcDesc))
      && (v.outcome.Success? ==>
            && v.outcome.value
            && v.state.currentClass == s.currentClass
            && v.state.currentField == Some(FieldSignature(srcName, srcDesc))
            && FieldSignature(srcName, srcDesc) in v.state.result.classes[s.currentClass.value].fields
            && v.state.currentMethod.None? && v.state.currentParameter.None?)
  {
  }

  /**
   * `visitMethod` without a source descriptor fails before touching any
   * cursor; with one it fails exactly when no class is current; on success
   * the field and parameter cursors are cleared and the method is keyed by
   * name and descriptor.
   */
  lemma MethodNeedsDescriptorAndOwner(s: VisitorState, srcName: string, srcDesc: Option<string>)
    requires CursorsValid(s)
    ensures var v := OnMethod(s, srcName, srcDesc);
      && (srcDesc.None? ==> v.outcome == Failure(NoSourceDescriptor(CurrentClassName(s), srcName)) && v.state == s)
      && (v.outcome.Success? <==> srcDesc.Some? && s.currentClass.Some?)
      && (v.outcome.Success? ==>
            && v.outcome.value
            && v.state.currentClass == s.currentClass
            && v.state.currentMethod == Some(MethodSignature(srcName, srcDesc.value))
            && MethodSignature(srcName, srcDesc.value) in v.state.result.classes[s.currentClass.value].methods
            && v.state.currentField.None? && v.state.currentParameter.None?)
  {
  }

  /**
   * `visitMethodArg` keys the parameter by local-variable index: the
   * argument position and name make no difference. It fails exactly when no
   * method is current.
   */
  lemma MethodArgKeyedByLvIndex(s: VisitorState, position: int, otherPosition: int, lvIndex: int, srcName: Option<string>, otherName: Option<string>)
    requires CursorsValid(s)
    ensures OnMethodArg(s, position, lvIndex, srcName).state == OnMethodArg(s, otherPosition, lvIndex, otherName).state
    ensures var v := OnMethodArg(s, position, lvIndex, srcName);
      && (v.outcome.Failure? <==> s.currentMethod.None?)
      && (v.outcome.Failure? ==> v.state == s && v.outcome.error == NoOwningMethod(lvIndex, srcName))
      && (v.outcome.Success? ==>
            && v.state.currentParameter == Some(lvIndex)
            && v.state.currentMethod == s.currentMethod && v.state.currentClass == s.currentClass
            && lvIndex in v.state.result.classes[s.currentClass.value].methods[s.currentMethod.value].parameters)
  {
  }

  /** Target names for a namespace other than the target one, and local-variable names, are ignored. */
  lemma DstNameIgnored(s: VisitorState, kind: MappedElementKind, namespace: int, name: string)
    requires CursorsValid(s)
    requires namespace != s.targetNs || kind == MethodVarKind
    ensures OnDstName(s, kind, namespace, name) == Visited(Success(()), s)
  {
  }

  /**
   * A target name for the target namespace fails exactly when the cursor of
   * its kind is null; otherwise it is stored in the entry that cursor points
   * at and in no other: every other kind's entry keeps its name, every
   * other class is untouched and no entry appears or disappears.
   */
  lemma DstNameSetsOnlyTarget(s: VisitorState, kind: MappedElementKind, name: string)
    requires CursorsValid(s) && kind != MethodVarKind
    ensures var v := OnDstName(s, kind, s.targetNs, name);
      && (v.outcome.Failure? <==> ElementName(s, kind).None?)
      && (v.outcome.Failure? ==> v.outcome.error == NoSourceNameError(s, kind, name) && v.state == s)
      && (v.outcome.Success? ==> ElementName(v.state, kind) == Some(Some(name)))
      && (forall other :: other != kind ==> ElementName(v.state, other) == ElementName(s, other))
      && Extends(s.result, v.state.result)
      && (forall c :: c in s.result.classes && Some(c) != s.currentClass ==> v.state.result.classes[c] == s.result.classes[c])
  {
    var v := OnDstName(s, kind, s.targetNs, name);
    match kind
    case ClassKind =>
    case FieldKind =>
    case MethodKind =>
    case MethodArgKind =>
  }

  // ---------------------------------------------------------------------------
  // A whole mappings file
  // ---------------------------------------------------------------------------

  /** One callback of the reader, with its arguments. */
  datatype MappingEvent =
    | Namespaces(srcNamespace: string, dstNamespaces: seq<string>)
    | ClassEntry(className: string)
    | FieldEntry(fieldEntryName: string, fieldEntryDescriptor: Option<string>)
    | MethodEntry(methodEntryName: string, methodEntryDescriptor: Option<string>)
    | MethodArgEntry(argPosition: int, argLvIndex: int, argName: Option<string>)
    | MethodVarEntry(lvtRowIndex: int, varLvIndex: int, startOpIdx: int, endOpIdx: int, varName: Option<string>)
    | DstName(dstKind: MappedElementKind, namespace: int, dstName: string)
    | Comment(commentKind: MappedElementKind, comment: string)

  /** The visitor's fields after one callback, or the exception it throws. */
  function OnEvent(s: VisitorState, targetNamespace: Option<string>, e: MappingEvent): (r: Result<VisitorState, MappingsReadError>)
    requires CursorsValid(s)
    ensures r.Success? ==> CursorsValid(r.value) && Extends(r.value.result, s.result)
  {
    match e
    case Namespaces(src, dsts) =>
      var v := OnNamespaces(s, targetNamespace, src, dsts);
      if v.outcome.Failure? then Failure(v.outcome.error) else Success(v.state)
    case ClassEntry(n) => Success(OnClass(s, n))
    case FieldEntry(n, d) =>
      var v := OnField(s, n, d);
      if v.outcome.Failure? then Failure(v.outcome.error) else Success(v.state)
    case MethodEntry(n, d) =>
      var v := OnMethod(s, n, d);
      if v.outcome.Failure? then Failure(v.outcome.error) else Success(v.state)
    case MethodArgEntry(p, i, n) =>
      var v := OnMethodArg(s, p, i, n);
      if v.outcome.Failure? then Failure(v.outcome.error) else Success(v.state)
    case MethodVarEntry(_, _, _, _, _) => Success(s)
    case DstName(k, ns, n) =>
      var v := OnDstName(s, k, ns, n);
      if v.outcome.Failure? then Failure(v.outcome.error) else Success(v.state)
    case Comment(_, _) => Success(s)
  }

  /** The callbacks in order; the first exception ends the read. */
  function Run(s: VisitorState, targetNamespace: Option<string>, events: seq<MappingEvent>): (r: Result<VisitorState, MappingsReadError>)
    requires CursorsValid(s)
    ensures r.Success? ==> CursorsValid(r.value) && Extends(r.value.result, s.result)
    decreases |events|
  {
    if events == [] then Success(s)
    else
      match OnEvent(s, targetNamespace, events[0])
      case Failure(e) => Failure(e)
      case Success(next) =>
        var r := Run(next, targetNamespace, events[1..]);
        assert r.Success? ==> Extends(r.value.result, s.result) by {
          if r.Success? {
            ExtendsIsTransitive(s.result, next.result, r.value.result);
          }
        }
        r
  }

  /** What `readMappings` returns for a file whose reader issues `events`. */
  function MappingsRead(events: seq<MappingEvent>, targetNamespace: Option<string>): (r: Result<MappingSet, MappingsReadError>)
    ensures events == [] ==> r == Success(EmptyMappingSet())
    ensures r.Success? ==> forall i :: 0 <= i < |events| && events[i].ClassEntry? ==> events[i].className in r.value.classes
  {
    match Run(InitialState(), targetNamespace, events)
    case Success(s) =>
      VisitedClassesArePresent(events, targetNamespace);
      Success(s.result)
    case Failure(e) => Failure(e)
  }

  lemma VisitedClassesArePresent(events: seq<MappingEvent>, targetNamespace: Option<string>)
    requires Run(InitialState(), targetNamespace, events).Success?
    ensures forall i :: 0 <= i < |events| && events[i].ClassEntry? ==>
      events[i].className in Run(InitialState(), targetNamespace, events).value.result.classes
  {
    forall i | 0 <= i < |events| && events[i].ClassEntry? {
      RunKeepsVisitedClasses(InitialState(), targetNamespace, events, i);
    }
  }

  /** Every class the file names has an entry in a successfully read mapping set. */
  lemma {:induction false} RunKeepsVisitedClasses(s: VisitorState, targetNamespace: Option<string>, events: seq<MappingEvent>, i: int)
    requires CursorsValid(s)
    requires Run(s, targetNamespace, events).Success?
    requires 0 <= i < |events| && events[i].ClassEntry?
    ensures events[i].className in Run(s, targetNamespace, events).value.result.classes
    decreases |events|
  {
    var next := OnEvent(s, targetNamespace, events[0]).value;
    assert Run(s, targetNamespace, events) == Run(next, targetNamespace, events[1..]);
    if i == 0 {
      assert events[0].className in next.result.classes;
    } else {
      assert events[1..][i - 1] == events[i];
      RunKeepsVisitedClasses(next, targetNamespace, events[1..], i - 1);
    }
  }

  /** Without a requested namespace the target index stays 0 throughout. */
  lemma {:induction false} RunWithoutTargetKeepsIndexZero(s: VisitorState, events: seq<MappingEvent>)
    requires CursorsValid(s) && s.targetNs == 0
    requires Run(s, None, events).Success?
    ensures Run(s, None, events).value.targetNs == 0
    decreases |events|
  {
    if events != [] {
      EventWithoutTargetKeepsIndex(s, events[0]);
      var next := OnEvent(s, None, events[0]).value;
      RunWithoutTargetKeepsIndexZero(next, events[1..]);
    }
  }

  lemma EventWithoutTargetKeepsIndex(s: VisitorState, e: MappingEvent)
    requires CursorsValid(s)
    ensures OnEvent(s, None, e).Success? ==> OnEvent(s, None, e).value.targetNs == s.targetNs
  {
    match e
    case Namespaces(src, dsts) =>
    case ClassEntry(n) =>
    case FieldEntry(n, d) =>
    case MethodEntry(n, d) =>
    case MethodArgEntry(p, i, n) =>
    case MethodVarEntry(_, _, _, _, _) =>
    case DstName(k, ns, n) =>
    case Comment(_, _) =>
  }

  /** A read of a file whose namespace header offers several destinations and no target was requested fails. */
  lemma AmbiguousHeaderFails(src: string, dsts: seq<string>, rest: seq<MappingEvent>)
    requires |dsts| != 1
    ensures MappingsRead([Namespaces(src, dsts)] + rest, None) == Failure(AmbiguousTargetNamespace(dsts))
  {
    assert ([Namespaces(src, dsts)] + rest)[0] == Namespaces(src, dsts);
  }

  // ---------------------------------------------------------------------------
  // The visitor object
  // ---------------------------------------------------------------------------

  /** The anonymous `MappingVisitor` of `readMappings`. */
  class MappingsVisitor {
    const targetNamespace: Option<string>
    var targetNs: int
    var result: MappingSet
    var currentClass: Option<string>
    var currentField: Option<FieldSignature>
    var currentMethod: Option<MethodSignature>
    var currentParameter: Option<int>

    function State(): VisitorState
      reads this
    {
      VisitorState(targetNs, result, currentClass, currentField, currentMethod, currentParameter)
    }

    predicate Valid()
      reads this
    {
      CursorsValid(State())
    }

    constructor (targetNamespace: Option<string>)
      ensures Valid() && State() == InitialState()
      ensures this.targetNamespace == targetNamespace
    {
      this.targetNamespace := targetNamespace;
      targetNs := 0;
      result := EmptyMappingSet();
      currentClass := None;
      currentField := None;
      currentMethod := None;
      currentParameter := None;
    }

    method GetFlags() returns (flags: set<MappingFlag>)
      ensures flags == {NeedsSrcMethodDesc}
    {
      flags := {NeedsSrcMethodDesc};
    }

    method VisitNamespaces(srcNamespace: string, dstNamespaces: seq<string>) returns (r: Result<(), MappingsReadError>)
      requires Valid()
      modifies this
      ensures Valid()
      ensures Visited(r, State()) == OnNamespaces(old(State()), targetNamespace, srcNamespace, dstNamespaces)
    {
      if targetNamespace.None? {
        if |dstNamespaces| != 1 {
          return Failure(AmbiguousTargetNamespace(dstNamespaces));
        }
        return Success(());
      }
      targetNs := IndexOf(dstNamespaces, targetNamespace.value);
      if targetNs == -1 {
        return Failure(TargetNamespaceNotFound(dstNamespaces));
      }
      r := Success(());
    }

    method VisitClass(srcName: string) returns (r: bool)
      requires Valid()
      modifies this
      ensures Valid()
      ensures r && State() == OnClass(old(State()), srcName)
    {
      result := GetOrCreateClass(result, srcName);
      currentClass := Some(srcName);
      currentField := None;
      currentMethod := None;
      currentParameter := None;
      r := true;
    }

    method VisitField(srcName: string, srcDesc: Option<string>) returns (r: Result<bool, MappingsReadError>)
      requires Valid()
      modifies this
      ensures Valid()
      ensures Visited(r, State()) == OnField(old(State()), srcName, srcDesc)
    {
      if currentClass.None? {
        return Failure(NoOwningClassForField(srcName, srcDesc));
      }
      var sig := FieldSignature(srcName, srcDesc);
      result := GetOrCreateField(result, currentClass.value, sig);
      currentField := Some(sig);
      currentMethod := None;
      currentParameter := None;
      r := Success(true);
    }

    method VisitMethod(srcName: string, srcDesc: Option<string>) returns (r: Result<bool, MappingsReadError>)
      requires Valid()
      modifies this
      ensures Valid()
      ensures Visited(r, State()) == OnMethod(old(State()), srcName, srcDesc)
    {
      if srcDesc.None? {
        return Failure(NoSourceDescriptor(CurrentClassName(State()), srcName));
      }
      currentField := None;
      if currentClass.None? {
        return Failure(NoOwningClassForMethod(srcName, srcDesc.value));
      }
      var sig := MethodSignature(srcName, srcDesc.value);
      result := GetOrCreateMethod(result, currentClass.value, sig);
      currentMethod := Some(sig);
      currentParameter := None;
      r := Success(true);
    }

    method VisitMethodArg(argPosition: int, lvIndex: int, srcName: Option<string>) returns (r: Result<bool, MappingsReadError>)
      requires Valid()
      modifies this
      ensures Valid()
      ensures Visited(r, State()) == OnMethodArg(old(State()), argPosition, lvIndex, srcName)
    {
      if currentMethod.None? {
        return Failure(NoOwningMethod(lvIndex, srcName));
      }
      result := GetOrCreateParameter(result, currentClass.value, currentMethod.value, lvIndex);
      currentParameter := Some(lvIndex);
      r := Success(true);
    }

    method VisitDstName(kind: MappedElementKind, namespace: int, name: string) returns (r: Result<(), MappingsReadError>)
      requires Valid()
      modifies this
      ensures Valid()
      ensures Visited(r, State()) == OnDstName(old(State()), kind, namespace, name)
    {
      if namespace != targetNs {
        return Success(());
      }
      match kind {
        case ClassKind =>
          if currentClass.None? {
            return Failure(NoSourceNameError(State(), kind, name));
          }
          result := SetClassName(result, currentClass.value, name);
        case FieldKind =>
          if currentField.None? {
            return Failure(NoSourceNameError(State(), kind, name));
          }
          result := SetFieldName(result, currentClass.value, currentField.value, name);
        case MethodKind =>
          if currentMethod.None? {
            return Failure(NoSourceNameError(State(), kind, name));
          }
          result := SetMethodName(result, currentClass.value, currentMethod.value, name);
        case MethodArgKind =>
          if currentParameter.None? {
            return Failure(NoSourceNameError(State(), kind, name));
          }
          result := SetParameterName(result, currentClass.value, currentMethod.value, currentParameter.value, name);
        case MethodVarKind =>
      }
      r := Success(());
    }

    /** Local variables are not supported: their contents are never visited. */
    method VisitMethodVar(lvtRowIndex: int, lvIndex: int, startOpIdx: int, endOpIdx: int, srcName: Option<string>) returns (r: bool)
      ensures !r
    {
      r := false;
    }

    /** Comments are dropped. */
    method VisitComment(targetKind: MappedElementKind, comment: string) {
    }
  }

  /** The reader handing one callback to the visitor. */
  method Dispatch(visitor: MappingsVisitor, e: MappingEvent) returns (r: Result<(), MappingsReadError>)
    requires visitor.Valid()
    modifies visitor
    ensures visitor.Valid()
    ensures var expected := OnEvent(old(visitor.State()), visitor.targetNamespace, e);
      && (r.Failure? <==> expected.Failure?)
      && (r.Failure? ==> r.error == expected.error)
      && (r.Success? ==> visitor.State() == expected.value)
  {
    match e {
      case Namespaces(src, dsts) =>
        r := visitor.VisitNamespaces(src, dsts);
      case ClassEntry(n) =>
        var _ := visitor.VisitClass(n);
        r := Success(());
      case FieldEntry(n, d) =>
        var v := visitor.VisitField(n, d);
        r := if v.Failure? then Failure(v.error) else Success(());
      case MethodEntry(n, d) =>
        var v := visitor.VisitMethod(n, d);
        r := if v.Failure? then Failure(v.error) else Success(());
      case MethodArgEntry(p, i, n) =>
        var v := visitor.VisitMethodArg(p, i, n);
        r := if v.Failure? then Failure(v.error) else Success(());
      case MethodVarEntry(row, i, start, end, n) =>
        var _ := visitor.VisitMethodVar(row, i, start, end, n);
        r := Success(());
      case DstName(k, ns, n) =>
        r := visitor.VisitDstName(k, ns, n);
      case Comment(k, c) =>
        visitor.VisitComment(k, c);
        r := Success(());
    }
  }

  /**
   * `readMappings(path, targetNamespace)`: a fresh mapping set filled by the
   * visitor from the reader's callbacks `events`; an exception from any
   * callback ends the read.
   */
  method ReadMappingsFile(events: seq<MappingEvent>, targetNamespace: Option<string>) returns (r: Result<MappingSet, MappingsReadError>)
    ensures r == MappingsRead(events, targetNamespace)
  {
    var visitor := new MappingsVisitor(targetNamespace);
    var i := 0;
    while i < |events|
      invariant 0 <= i <= |events|
      invariant visitor.Valid() && visitor.targetNamespace == targetNamespace
      invariant Run(visitor.State(), targetNamespace, events[i..]) == Run(InitialState(), targetNamespace, events)
    {
      assert events[i..][1..] == events[i + 1..];
      var step := Dispatch(visitor, events[i]);
      if step.Failure? {
        return Failure(step.error);
      }
      i := i + 1;
    }
    r := Success(visitor.result);
  }
}
