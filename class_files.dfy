/**
 * An abstract JVM class file: only the declarations that carry an
 * `access_flags` word (The Java Virtual Machine Specification, Java SE 8:
 * section 4.1 for the class, 4.5 for fields, 4.6 for methods, 4.7.6 for the
 * InnerClasses attribute; MethodParameters and Module attributes as in
 * sections 4.7.24 and 4.7.25 of the Java SE 9 edition). Constant pools,
 * code and every attribute without an access word are left out; bytes are
 * never modelled.
 */
module ClassFiles {
  import opened Common

  /** A Kotlin `Int` used as a bit set: 32 bits, two's complement. */
  type AccessFlags = bv32

  /** Declaration not present in source code (tables 4.1-A, 4.5-A, 4.6-A, 4.7.6-A). */
  const ACC_SYNTHETIC: AccessFlags := 0x1000
  /** Method declared strictfp (table 4.6-A). */
  const ACC_STRICT: AccessFlags := 0x0800

  datatype Parameter = Parameter(name: Option<string>, access: AccessFlags)

  datatype Method = Method(access: AccessFlags, name: string, descriptor: string, parameters: seq<Parameter>)

  datatype Field = Field(access: AccessFlags, name: string, descriptor: string)

  datatype InnerClass = InnerClass(name: string, outerName: Option<string>, innerName: Option<string>, access: AccessFlags)

  datatype ModuleDirective =
    | Requires(requiredModule: string, access: AccessFlags, version: Option<string>)
    | Exports(packageName: string, access: AccessFlags, toModules: seq<string>)
    | Opens(packageName: string, access: AccessFlags, toModules: seq<string>)
      /** uses, provides, packages and the main class carry no access word */
    | OtherDirective(text: string)

  datatype ModuleInfo = ModuleInfo(name: string, access: AccessFlags, version: Option<string>, directives: seq<ModuleDirective>)

  datatype ClassFile = ClassFile(
    version: int,
    access: AccessFlags,
    name: string,
    superName: Option<string>,
    interfaces: seq<string>,
    moduleInfo: Option<ModuleInfo>,
    innerClasses: seq<InnerClass>,
    fields: seq<Field>,
    methods: seq<Method>)

  /** The kind of declaration an access word belongs to. */
  datatype DeclKind =
    | ClassDecl | FieldDecl | MethodDecl | ParameterDecl | InnerClassDecl
    | ModuleDecl | RequiresDecl | ExportsDecl | OpensDecl

  datatype AccessWord = AccessWord(kind: DeclKind, access: AccessFlags)

  /** Every access word of a class file, each tagged with its declaration kind. */
  function AccessWords(cf: ClassFile): seq<AccessWord> {
    [AccessWord(ClassDecl, cf.access)]
      + ModuleWords(cf.moduleInfo)
      + InnerClassWords(cf.innerClasses)
      + FieldWords(cf.fields)
      + MethodWords(cf.methods)
  }

  function ModuleWords(m: Option<ModuleInfo>): seq<AccessWord> {
    match m
    case None => []
    case Some(info) => [AccessWord(ModuleDecl, info.access)] + DirectiveWords(info.directives)
  }

  function DirectiveWords(ds: seq<ModuleDirective>): seq<AccessWord> {
    if ds == [] then [] else DirectiveWord(ds[0]) + DirectiveWords(ds[1..])
  }

  function DirectiveWord(d: ModuleDirective): seq<AccessWord> {
    match d
    case Requires(_, a, _) => [AccessWord(RequiresDecl, a)]
    case Exports(_, a, _) => [AccessWord(ExportsDecl, a)]
    case Opens(_, a, _) => [AccessWord(OpensDecl, a)]
    case OtherDirective(_) => []
  }

  function InnerClassWords(cs: seq<InnerClass>): seq<AccessWord> {
    if cs == [] then [] else [AccessWord(InnerClassDecl, cs[0].access)] + InnerClassWords(cs[1..])
  }

  function FieldWords(fs: seq<Field>): seq<AccessWord> {
    if fs == [] then [] else [AccessWord(FieldDecl, fs[0].access)] + FieldWords(fs[1..])
  }

  function ParameterWords(ps: seq<Parameter>): seq<AccessWord> {
    if ps == [] then [] else [AccessWord(ParameterDecl, ps[0].access)] + ParameterWords(ps[1..])
  }

  function MethodWords(ms: seq<Method>): seq<AccessWord> {
    if ms == [] then [] else MethodWord(ms[0]) + MethodWords(ms[1..])
  }

  /** A method's own word followed by its parameters' words. */
  function MethodWord(m: Method): seq<AccessWord> {
    [AccessWord(MethodDecl, m.access)] + ParameterWords(m.parameters)
  }

  /** The class file with every access word set to zero: everything a flag rewrite must leave alone. */
  function Erased(cf: ClassFile): ClassFile {
    cf.(access := 0,
        moduleInfo := EraseModule(cf.moduleInfo),
        innerClasses := EraseInnerClasses(cf.innerClasses),
        fields := EraseFields(cf.fields),
        methods := EraseMethods(cf.methods))
  }

  function EraseModule(m: Option<ModuleInfo>): Option<ModuleInfo> {
    match m
    case None => None
    case Some(info) => Some(info.(access := 0, directives := EraseDirectives(info.directives)))
  }

  function EraseDirectives(ds: seq<ModuleDirective>): seq<ModuleDirective> {
    if ds == [] then []
    else [if ds[0].OtherDirective? then ds[0] else ds[0].(access := 0)] + EraseDirectives(ds[1..])
  }

  function EraseInnerClasses(cs: seq<InnerClass>): seq<InnerClass> {
    if cs == [] then [] else [cs[0].(access := 0)] + EraseInnerClasses(cs[1..])
  }

  function EraseFields(fs: seq<Field>): seq<Field> {
    if fs == [] then [] else [fs[0].(access := 0)] + EraseFields(fs[1..])
  }

  function EraseParameters(ps: seq<Parameter>): seq<Parameter> {
    if ps == [] then [] else [ps[0].(access := 0)] + EraseParameters(ps[1..])
  }

  function EraseMethods(ms: seq<Method>): seq<Method> {
    if ms == [] then []
    else [ms[0].(access := 0, parameters := EraseParameters(ms[0].parameters))] + EraseMethods(ms[1..])
  }
}
