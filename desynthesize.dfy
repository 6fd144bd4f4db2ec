/**
 * The `desynthesizeTransformer` of transformers.kt. It clears ACC_SYNTHETIC
 * on every access word the class visitor forwards: the class, fields,
 * inner-class entries, method parameters, the module and its requires,
 * exports and opens directives. Methods are the one exception: their
 * original synthetic bit is kept in ACC_STRICT, so that a later lookup can
 * tell that a method was synthetic.
 */
module Desynthesize {
  import opened Common
  import opened ClassFiles
  import opened ClasspathTransformers

  /** `r` is `a` with ACC_SYNTHETIC cleared and every other bit kept. */
  ghost predicate Cleared(a: AccessFlags, r: AccessFlags) {
    r & ACC_SYNTHETIC == 0 && r | ACC_SYNTHETIC == a | ACC_SYNTHETIC
  }

  /**
   * `r` is the method access word `a` with ACC_SYNTHETIC cleared, ACC_STRICT
   * set exactly when `a` was synthetic, and every other bit kept.
   */
  ghost predicate MarkedStrict(a: AccessFlags, r: AccessFlags) {
    && r & ACC_SYNTHETIC == 0
    && (r & ACC_STRICT != 0 <==> a & ACC_SYNTHETIC != 0)
    && r | ACC_SYNTHETIC | ACC_STRICT == a | ACC_SYNTHETIC | ACC_STRICT
  }

  /** The rule for one access word, by the kind of its declaration. */
  ghost predicate Rewritten(w: AccessWord, w': AccessWord) {
    w'.kind == w.kind &&
    if w.kind == MethodDecl then MarkedStrict(w.access, w'.access) else Cleared(w.access, w'.access)
  }

  ghost predicate AllRewritten(ws: seq<AccessWord>, ws': seq<AccessWord>) {
    |ws| == |ws'| && forall i :: 0 <= i < |ws| ==> Rewritten(ws[i], ws'[i])
  }

  /** `desynthesize(access) = access and ACC_SYNTHETIC.inv()`. */
  function Desynthesize(access: AccessFlags): (r: AccessFlags)
    ensures Cleared(access, r)
  {
    access & !ACC_SYNTHETIC
  }

  /** The access word `visitMethod` forwards. */
  function DesynthesizeMethodAccess(access: AccessFlags): (r: AccessFlags)
    ensures MarkedStrict(access, r)
  {
    var newAccess := Desynthesize(access);
    if access & ACC_SYNTHETIC != 0 then newAccess | ACC_STRICT else newAccess & !ACC_STRICT
  }

  /** The two rules each determine the rewritten word. */
  lemma RulesDetermineResult(a: AccessFlags, r1: AccessFlags, r2: AccessFlags)
    ensures Cleared(a, r1) && Cleared(a, r2) ==> r1 == r2
    ensures MarkedStrict(a, r1) && MarkedStrict(a, r2) ==> r1 == r2
  {
    if Cleared(a, r1) && Cleared(a, r2) {
      ClearedIsUnique(a, r1, r2);
    }
    if MarkedStrict(a, r1) && MarkedStrict(a, r2) {
      MarkedStrictIsUnique(a, r1, r2);
    }
  }

  lemma ClearedIsUnique(a: AccessFlags, r1: AccessFlags, r2: AccessFlags)
    requires Cleared(a, r1) && Cleared(a, r2)
    ensures r1 == r2
  {
  }

  lemma MarkedStrictIsUnique(a: AccessFlags, r1: AccessFlags, r2: AccessFlags)
    requires MarkedStrict(a, r1) && MarkedStrict(a, r2)
    ensures r1 == r2
  {
  }

  lemma DesynthesizeIsIdempotent(a: AccessFlags)
    ensures Desynthesize(Desynthesize(a)) == Desynthesize(a)
  {
  }

  /** A strictfp method that was not synthetic loses its ACC_STRICT bit. */
  lemma StrictfpIsLost(a: AccessFlags)
    requires a & ACC_STRICT != 0 && a & ACC_SYNTHETIC == 0
    ensures DesynthesizeMethodAccess(a) & ACC_STRICT == 0
    ensures DesynthesizeMethodAccess(a) != a
  {
  }

  /**
   * Running the method rewrite twice on a synthetic method erases the mark
   * the first run left: the method rewrite is not idempotent.
   */
  lemma MethodRewriteIsNotIdempotent(a: AccessFlags)
    requires a & ACC_SYNTHETIC != 0
    ensures DesynthesizeMethodAccess(a) & ACC_STRICT != 0
    ensures DesynthesizeMethodAccess(DesynthesizeMethodAccess(a)) & ACC_STRICT == 0
    ensures DesynthesizeMethodAccess(DesynthesizeMethodAccess(a)) != DesynthesizeMethodAccess(a)
  {
  }

  function DesynthesizeModule(m: Option<ModuleInfo>): Option<ModuleInfo> {
    match m
    case None => None
    case Some(info) => Some(info.(access := Desynthesize(info.access), directives := DesynthesizeDirectives(info.directives)))
  }

  function DesynthesizeDirectives(ds: seq<ModuleDirective>): seq<ModuleDirective> {
    if ds == [] then [] else [DesynthesizeDirective(ds[0])] + DesynthesizeDirectives(ds[1..])
  }

  /** `visitRequire`, `visitExport` and `visitOpen` of the module visitor; other directives pass through. */
  function DesynthesizeDirective(d: ModuleDirective): ModuleDirective {
    if d.OtherDirective? then d else d.(access := Desynthesize(d.access))
  }

  function DesynthesizeInnerClasses(cs: seq<InnerClass>): (r: seq<InnerClass>)
    ensures |r| == |cs|
  {
    if cs == [] then [] else [cs[0].(access := Desynthesize(cs[0].access))] + DesynthesizeInnerClasses(cs[1..])
  }

  function DesynthesizeFields(fs: seq<Field>): (r: seq<Field>)
    ensures |r| == |fs|
  {
    if fs == [] then [] else [fs[0].(access := Desynthesize(fs[0].access))] + DesynthesizeFields(fs[1..])
  }

  function DesynthesizeParameters(ps: seq<Parameter>): seq<Parameter> {
    if ps == [] then [] else [ps[0].(access := Desynthesize(ps[0].access))] + DesynthesizeParameters(ps[1..])
  }

  function DesynthesizeMethods(ms: seq<Method>): (r: seq<Method>)
    ensures |r| == |ms|
  {
    if ms == [] then [] else [DesynthesizeMethod(ms[0])] + DesynthesizeMethods(ms[1..])
  }

  /** `visitMethod`, with the method visitor that desynthesizes `visitParameter`. */
  function DesynthesizeMethod(m: Method): (r: Method)
    ensures MarkedStrict(m.access, r.access)
    ensures r.name == m.name && r.descriptor == m.descriptor
  {
    m.(access := DesynthesizeMethodAccess(m.access), parameters := DesynthesizeParameters(m.parameters))
  }

  /** What the desynthesizing class visitor forwards to its parent. */
  function DesynthesizeClass(cf: ClassFile): (r: ClassFile)
    ensures Cleared(cf.access, r.access)
    ensures r.version == cf.version && r.name == cf.name && r.superName == cf.superName && r.interfaces == cf.interfaces
    ensures r.moduleInfo.Some? == cf.moduleInfo.Some?
    ensures |r.innerClasses| == |cf.innerClasses| && |r.fields| == |cf.fields| && |r.methods| == |cf.methods|
  {
    cf.(access := Desynthesize(cf.access),
        moduleInfo := DesynthesizeModule(cf.moduleInfo),
        innerClasses := DesynthesizeInnerClasses(cf.innerClasses),
        fields := DesynthesizeFields(cf.fields),
        methods := DesynthesizeMethods(cf.methods))
  }

  /**
   * The class visitor rewrites every access word of the class file by its
   * rule (methods keep their synthetic bit as ACC_STRICT, all others just
   * lose it) and changes nothing else.
   */
  lemma DesynthesizeClassRewritesEveryWord(cf: ClassFile)
    ensures Erased(DesynthesizeClass(cf)) == Erased(cf)
    ensures AllRewritten(AccessWords(cf), AccessWords(DesynthesizeClass(cf)))
  {
    var r := DesynthesizeClass(cf);
    ModuleRewritten(cf.moduleInfo);
    InnerClassesRewritten(cf.innerClasses);
    FieldsRewritten(cf.fields);
    MethodsRewritten(cf.methods);
    var w0, w0' := [AccessWord(ClassDecl, cf.access)], [AccessWord(ClassDecl, r.access)];
    var w1, w1' := w0 + ModuleWords(cf.moduleInfo), w0' + ModuleWords(r.moduleInfo);
    AllRewrittenConcat(w0, w0', ModuleWords(cf.moduleInfo), ModuleWords(r.moduleInfo));
    var w2, w2' := w1 + InnerClassWords(cf.innerClasses), w1' + InnerClassWords(r.innerClasses);
    AllRewrittenConcat(w1, w1', InnerClassWords(cf.innerClasses), InnerClassWords(r.innerClasses));
    var w3, w3' := w2 + FieldWords(cf.fields), w2' + FieldWords(r.fields);
    AllRewrittenConcat(w2, w2', FieldWords(cf.fields), FieldWords(r.fields));
    AllRewrittenConcat(w3, w3', MethodWords(cf.methods), MethodWords(r.methods));
    assert AccessWords(cf) == w3 + MethodWords(cf.methods);
    assert AccessWords(r) == w3' + MethodWords(r.methods);
  }

  lemma AllRewrittenConcat(a: seq<AccessWord>, a': seq<AccessWord>, b: seq<AccessWord>, b': seq<AccessWord>)
    requires AllRewritten(a, a') && AllRewritten(b, b')
    ensures AllRewritten(a + b, a' + b')
  {
    forall i | 0 <= i < |a + b| ensures Rewritten((a + b)[i], (a' + b')[i]) {
      if i >= |a| {
        assert (a + b)[i] == b[i - |a|] && (a' + b')[i] == b'[i - |a|];
      }
    }
  }

  lemma ModuleRewritten(m: Option<ModuleInfo>)
    ensures EraseModule(DesynthesizeModule(m)) == EraseModule(m)
    ensures AllRewritten(ModuleWords(m), ModuleWords(DesynthesizeModule(m)))
  {
    if m.Some? {
      var info := m.value;
      DirectivesRewritten(info.directives);
      AllRewrittenConcat([AccessWord(ModuleDecl, info.access)], [AccessWord(ModuleDecl, Desynthesize(info.access))],
                         DirectiveWords(info.directives), DirectiveWords(DesynthesizeDirectives(info.directives)));
    }
  }

  lemma {:induction false} DirectivesRewritten(ds: seq<ModuleDirective>)
    ensures EraseDirectives(DesynthesizeDirectives(ds)) == EraseDirectives(ds)
    ensures AllRewritten(DirectiveWords(ds), DirectiveWords(DesynthesizeDirectives(ds)))
  {
    if ds != [] {
      var d, d' := ds[0], DesynthesizeDirective(ds[0]);
      DirectivesRewritten(ds[1..]);
      assert AllRewritten(DirectiveWord(d), DirectiveWord(d'));
      AllRewrittenConcat(DirectiveWord(d), DirectiveWord(d'), DirectiveWords(ds[1..]), DirectiveWords(DesynthesizeDirectives(ds[1..])));
    }
  }

  lemma {:induction false} InnerClassesRewritten(cs: seq<InnerClass>)
    ensures EraseInnerClasses(DesynthesizeInnerClasses(cs)) == EraseInnerClasses(cs)
    ensures AllRewritten(InnerClassWords(cs), InnerClassWords(DesynthesizeInnerClasses(cs)))
  {
    if cs != [] {
      InnerClassesRewritten(cs[1..]);
      AllRewrittenConcat([AccessWord(InnerClassDecl, cs[0].access)], [AccessWord(InnerClassDecl, Desynthesize(cs[0].access))],
                         InnerClassWords(cs[1..]), InnerClassWords(DesynthesizeInnerClasses(cs[1..])));
    }
  }

  lemma {:induction false} FieldsRewritten(fs: seq<Field>)
    ensures EraseFields(DesynthesizeFields(fs)) == EraseFields(fs)
    ensures AllRewritten(FieldWords(fs), FieldWords(DesynthesizeFields(fs)))
  {
    if fs != [] {
      FieldsRewritten(fs[1..]);
      AllRewrittenConcat([AccessWord(FieldDecl, fs[0].access)], [AccessWord(FieldDecl, Desynthesize(fs[0].access))],
                         FieldWords(fs[1..]), FieldWords(DesynthesizeFields(fs[1..])));
    }
  }

  lemma {:induction false} ParametersRewritten(ps: seq<Parameter>)
    ensures |DesynthesizeParameters(ps)| == |ps|
    ensures EraseParameters(DesynthesizeParameters(ps)) == EraseParameters(ps)
    ensures AllRewritten(ParameterWords(ps), ParameterWords(DesynthesizeParameters(ps)))
  {
    if ps != [] {
      ParametersRewritten(ps[1..]);
      AllRewrittenConcat([AccessWord(ParameterDecl, ps[0].access)], [AccessWord(ParameterDecl, Desynthesize(ps[0].access))],
                         ParameterWords(ps[1..]), ParameterWords(DesynthesizeParameters(ps[1..])));
    }
  }

  lemma MethodRewritten(m: Method)
    ensures EraseParameters(DesynthesizeMethod(m).parameters) == EraseParameters(m.parameters)
    ensures AllRewritten(MethodWord(m), MethodWord(DesynthesizeMethod(m)))
  {
    var m' := DesynthesizeMethod(m);
    ParametersRewritten(m.parameters);
    AllRewrittenConcat([AccessWord(MethodDecl, m.access)], [AccessWord(MethodDecl, m'.access)],
                       ParameterWords(m.parameters), ParameterWords(m'.parameters));
  }

  lemma {:induction false} MethodsRewritten(ms: seq<Method>)
    ensures EraseMethods(DesynthesizeMethods(ms)) == EraseMethods(ms)
    ensures AllRewritten(MethodWords(ms), MethodWords(DesynthesizeMethods(ms)))
  {
    if ms != [] {
      MethodRewritten(ms[0]);
      MethodsRewritten(ms[1..]);
      AllRewrittenConcat(MethodWord(ms[0]), MethodWord(DesynthesizeMethod(ms[0])),
                         MethodWords(ms[1..]), MethodWords(DesynthesizeMethods(ms[1..])));
    }
  }

  /** After the rewrite no access word of the class file has ACC_SYNTHETIC. */
  lemma NoSyntheticFlagRemains(cf: ClassFile)
    ensures forall w :: w in AccessWords(DesynthesizeClass(cf)) ==> w.access & ACC_SYNTHETIC == 0
  {
    var ws, ws' := AccessWords(cf), AccessWords(DesynthesizeClass(cf));
    DesynthesizeClassRewritesEveryWord(cf);
    forall w | w in ws' ensures w.access & ACC_SYNTHETIC == 0 {
      var i :| 0 <= i < |ws'| && ws'[i] == w;
      assert Rewritten(ws[i], ws'[i]);
    }
  }

  /**
   * The i-th method of the rewritten class is the i-th method of the input,
   * strictfp exactly when the original was synthetic, never synthetic, with
   * the same name, descriptor and number of parameters.
   */
  lemma MethodsMarkedStrict(cf: ClassFile, i: int)
    requires 0 <= i < |cf.methods|
    ensures |DesynthesizeClass(cf).methods| == |cf.methods|
    ensures var m, m' := cf.methods[i], DesynthesizeClass(cf).methods[i];
      && m'.name == m.name
      && m'.descriptor == m.descriptor
      && |m'.parameters| == |m.parameters|
      && (m'.access & ACC_STRICT != 0 <==> m.access & ACC_SYNTHETIC != 0)
      && m'.access & ACC_SYNTHETIC == 0
  {
    MethodAt(cf.methods, i);
    ParametersRewritten(cf.methods[i].parameters);
  }

  lemma {:induction false} MethodAt(ms: seq<Method>, i: int)
    requires 0 <= i < |ms|
    ensures |DesynthesizeMethods(ms)| == |ms|
    ensures DesynthesizeMethods(ms)[i] == DesynthesizeMethod(ms[i])
  {
    if i > 0 {
      MethodAt(ms[1..], i - 1);
    } else if |ms| > 1 {
      MethodAt(ms[1..], 0);
    }
  }

  /** `desynthesizeTransformer`: default flags, and a factory that always wraps its parent. */
  function DesynthesizeTransformer(): (t: ClasspathTransformer)
    ensures t.computeFlags == 0 && t.canCopyConstantPool
    ensures forall parent :: t.visitor(parent) == Some(Layer(DesynthesizeClass, parent))
    ensures forall parent :: t.visitor(parent).Some?
  {
    NewTransformer(parent => Some(Layer(DesynthesizeClass, parent)))
  }

  /**
   * With only the desynthesizing transformer registered, transform writes
   * the desynthesized class, copying the constant pool, with no compute
   * flags; input the reader rejects fails.
   */
  lemma TransformWithDesynthesize(asm: Asm, input: Bytes)
    ensures asm.read(input).None? ==> Transformed([DesynthesizeTransformer()], asm, input) == Failure(MalformedClass)
    ensures asm.read(input).Some? ==>
      Transformed([DesynthesizeTransformer()], asm, input)
        == Success(asm.write(Some(input), 0, DesynthesizeClass(asm.read(input).value)))
  {
    SingleLayerIsWritten(DesynthesizeTransformer(), DesynthesizeClass, asm, input);
  }
}
