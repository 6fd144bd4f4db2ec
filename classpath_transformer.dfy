/**
 * Class-file transformers applied to dependency classes before the compiler
 * front end reads them (ClasspathTransformer.kt, ClasspathTransformerManager.kt).
 *
 * ASM is abstracted: a class visitor chain is a stack of layers ending in the
 * ClassWriter; driving it with a ClassReader hands the class file to the
 * outermost layer, each layer rewrites what it receives and forwards it to
 * its parent, and the writer records what reaches it. Reading and writing
 * bytes are the parameters `Asm.read` and `Asm.write`; reading fails on
 * bytes that are not a class file ASM can parse.
 */
module ClasspathTransformers {
  import opened Common
  import opened ClassFiles

  /** The ClassWriter's `flags` argument (COMPUTE_MAXS, COMPUTE_FRAMES): a bit set, not an access word. */
  type ComputeFlags = bv32

  datatype ClassVisitor =
    | Writer
    | Layer(rewrite: ClassFile -> ClassFile, parent: ClassVisitor)

  /** What the writer at the bottom of `v` receives when a reader of `cf` drives `v` once. */
  function Deliver(v: ClassVisitor, cf: ClassFile): ClassFile {
    match v
    case Writer => cf
    case Layer(rewrite, parent) => Deliver(parent, rewrite(cf))
  }

  /**
   * The transformer record: writer compute flags, whether the writer may copy
   * the reader's constant pool, and a factory that wraps a parent visitor or
   * returns None ("no contribution"). All three are immutable values.
   */
  datatype ClasspathTransformer = ClasspathTransformer(
    computeFlags: ComputeFlags,
    canCopyConstantPool: bool,
    visitor: ClassVisitor -> Option<ClassVisitor>)

  /** The constructor with its default arguments, `ClasspathTransformer { parent -> ... }`. */
  function NewTransformer(visitor: ClassVisitor -> Option<ClassVisitor>): (t: ClasspathTransformer)
    ensures t.computeFlags == 0
    ensures t.canCopyConstantPool
    ensures t.visitor == visitor
  {
    ClasspathTransformer(0, true, visitor)
  }

  /**
   * ASM's ClassReader and ClassWriter: `read` parses bytes, None when the
   * ClassReader constructor throws (bad magic, unsupported class version);
   * `write` encodes what the writer received, given the bytes whose
   * constant pool it may copy (None when it may not) and the compute flags.
   */
  datatype Asm = Asm(
    read: Bytes -> Option<ClassFile>,
    write: (Option<Bytes>, ComputeFlags, ClassFile) -> Bytes)

  /** The exception `ClassReader(input)` throws for input it cannot parse. */
  datatype TransformError = MalformedClass

  /** The compute flags of all transformers, or-ed from first to last. */
  function CombinedFlags(ts: seq<ClasspathTransformer>): ComputeFlags {
    if ts == [] then 0 else CombinedFlags(ts[..|ts| - 1]) | ts[|ts| - 1].computeFlags
  }

  /** Whether the writer may copy the constant pool, and-ed from first to last. */
  predicate CopyConstantPool(ts: seq<ClasspathTransformer>) {
    if ts == [] then true else CopyConstantPool(ts[..|ts| - 1]) && ts[|ts| - 1].canCopyConstantPool
  }

  /** One step of chain construction: `visitor = transformer.visitor(visitor) ?: continue`. */
  function Attach(t: ClasspathTransformer, parent: ClassVisitor): ClassVisitor {
    match t.visitor(parent)
    case Some(v) => v
    case None => parent
  }

  /** The chain built over `bottom`, walking `ts` from last to first. */
  function ChainOver(ts: seq<ClasspathTransformer>, bottom: ClassVisitor): ClassVisitor {
    if ts == [] then bottom else Attach(ts[0], ChainOver(ts[1..], bottom))
  }

  /**
   * The result of `transform(input)` with the transformer list `ts`: the
   * reader is created before the chain is built, so input it rejects fails
   * even when no transformer contributes.
   */
  function Transformed(ts: seq<ClasspathTransformer>, asm: Asm, input: Bytes): (r: Result<Bytes, TransformError>)
    ensures ts == [] ==> r == Success(input)
    ensures r.Failure? <==> ts != [] && asm.read(input).None?
  {
    if ts == [] then Success(input)
    else
      match asm.read(input)
      case None => Failure(MalformedClass)
      case Some(classFile) =>
        var chain := ChainOver(ts, Writer);
        if chain.Writer? then Success(input)
        else Success(asm.write(if CopyConstantPool(ts) then Some(input) else None, CombinedFlags(ts), Deliver(chain, classFile)))
  }

  /** `transform` of both ClasspathTransformerManager and TransformedVirtualFileSystem. */
  method TransformBytes(ts: seq<ClasspathTransformer>, asm: Asm, input: Bytes) returns (output: Result<Bytes, TransformError>)
    ensures output == Transformed(ts, asm, input)
    ensures ts == [] ==> output == Success(input)
  {
    if |ts| == 0 {
      return Success(input);
    }
    var computeFlags: ComputeFlags := 0;
    var copyConstantPool := true;
    var i := 0;
    while i < |ts|
      invariant 0 <= i <= |ts|
      invariant computeFlags == CombinedFlags(ts[..i])
      invariant copyConstantPool == CopyConstantPool(ts[..i])
    {
      assert ts[..i + 1][..i] == ts[..i];
      computeFlags := computeFlags | ts[i].computeFlags;
      copyConstantPool := copyConstantPool && ts[i].canCopyConstantPool;
      i := i + 1;
    }
    assert ts[..|ts|] == ts;
    var reader := asm.read(input);
    if reader.None? {
      return Failure(MalformedClass);
    }
    var visitor := Writer;
    var j := |ts|;
    while j > 0
      invariant 0 <= j <= |ts|
      invariant visitor == ChainOver(ts[j..], Writer)
    {
      j := j - 1;
      assert ts[j..][1..] == ts[j + 1..];
      var next := ts[j].visitor(visitor);
      if next.Some? {
        visitor := next.value;
      }
    }
    if visitor.Writer? {
      return Success(input);
    }
    output := Success(asm.write(if copyConstantPool then Some(input) else None, computeFlags, Deliver(visitor, reader.value)));
  }

  /** Every transformer's compute flags are included in the combination. */
  lemma {:induction false} CombinedFlagsIncludesEach(ts: seq<ClasspathTransformer>, i: int)
    requires 0 <= i < |ts|
    ensures ts[i].computeFlags | CombinedFlags(ts) == CombinedFlags(ts)
  {
    if i < |ts| - 1 {
      CombinedFlagsIncludesEach(ts[..|ts| - 1], i);
    }
  }

  /** The combination sets no flag that no transformer asked for. */
  lemma {:induction false} CombinedFlagsIsLeast(ts: seq<ClasspathTransformer>, bound: ComputeFlags)
    requires forall i :: 0 <= i < |ts| ==> ts[i].computeFlags | bound == bound
    ensures CombinedFlags(ts) | bound == bound
  {
    if ts != [] {
      CombinedFlagsIsLeast(ts[..|ts| - 1], bound);
    }
  }

  /** The constant pool is copied exactly when every transformer allows it. */
  lemma {:induction false} CopyConstantPoolIsAll(ts: seq<ClasspathTransformer>)
    ensures CopyConstantPool(ts) <==> forall i :: 0 <= i < |ts| ==> ts[i].canCopyConstantPool
  {
    if ts != [] {
      CopyConstantPoolIsAll(ts[..|ts| - 1]);
    }
  }

  /** A transformer whose factory always returns None does not change the chain. */
  lemma {:induction false} ChainSkipsAbsent(ts: seq<ClasspathTransformer>, k: int, bottom: ClassVisitor)
    requires 0 <= k < |ts|
    requires forall parent :: ts[k].visitor(parent).None?
    ensures ChainOver(ts, bottom) == ChainOver(ts[..k] + ts[k + 1..], bottom)
  {
    if k == 0 {
      assert ts[..0] + ts[1..] == ts[1..];
    } else {
      ChainSkipsAbsent(ts[1..], k - 1, bottom);
      assert ts[1..][..k - 1] + ts[1..][k..] == (ts[..k] + ts[k + 1..])[1..];
    }
  }

  /** Applies the rewrites in list order: the first one sees the class first. */
  function ApplyInOrder(rewrites: seq<ClassFile -> ClassFile>, cf: ClassFile): ClassFile {
    if rewrites == [] then cf else ApplyInOrder(rewrites[1..], rewrites[0](cf))
  }

  /**
   * When every transformer wraps its parent with one layer, the chain over
   * the reversed list makes the first listed transformer the outermost: the
   * class passes through the layers in list order.
   */
  lemma {:induction false} ChainAppliesInListOrder(ts: seq<ClasspathTransformer>, rewrites: seq<ClassFile -> ClassFile>, bottom: ClassVisitor, cf: ClassFile)
    requires |rewrites| == |ts|
    requires forall i, parent :: 0 <= i < |ts| ==> ts[i].visitor(parent) == Some(Layer(rewrites[i], parent))
    ensures Deliver(ChainOver(ts, bottom), cf) == Deliver(bottom, ApplyInOrder(rewrites, cf))
  {
    if ts != [] {
      var inner := ChainOver(ts[1..], bottom);
      assert ts[0].visitor(inner) == Some(Layer(rewrites[0], inner));
      ChainAppliesInListOrder(ts[1..], rewrites[1..], bottom, rewrites[0](cf));
    }
  }

  /**
   * If no factory contributes a visitor, transform returns its input
   * unchanged, provided the reader accepted it.
   */
  lemma {:induction false} NoContributionIsIdentity(ts: seq<ClasspathTransformer>, asm: Asm, input: Bytes)
    requires forall i, parent :: 0 <= i < |ts| ==> ts[i].visitor(parent).None?
    ensures Transformed(ts, asm, input) ==
      if ts != [] && asm.read(input).None? then Failure(MalformedClass) else Success(input)
  {
    NoContributionKeepsWriter(ts);
  }

  lemma {:induction false} NoContributionKeepsWriter(ts: seq<ClasspathTransformer>)
    requires forall i, parent :: 0 <= i < |ts| ==> ts[i].visitor(parent).None?
    ensures ChainOver(ts, Writer) == Writer
  {
    if ts != [] {
      NoContributionKeepsWriter(ts[1..]);
      assert ts[0].visitor(Writer).None?;
    }
  }

  /**
   * When some transformer contributes, the output is what the writer encodes
   * after the reader drove the whole chain once, with the combined settings.
   */
  lemma ContributionIsWritten(ts: seq<ClasspathTransformer>, asm: Asm, input: Bytes)
    requires ChainOver(ts, Writer).Layer?
    ensures ts != []
    ensures asm.read(input).None? ==> Transformed(ts, asm, input) == Failure(MalformedClass)
    ensures asm.read(input).Some? ==>
      Transformed(ts, asm, input)
        == Success(asm.write(if CopyConstantPool(ts) then Some(input) else None, CombinedFlags(ts),
                             Deliver(ChainOver(ts, Writer), asm.read(input).value)))
  {
  }

  /** With at least one transformer registered, input the reader rejects fails, whatever the transformers are. */
  lemma MalformedInputFails(ts: seq<ClasspathTransformer>, asm: Asm, input: Bytes)
    requires asm.read(input).None?
    ensures Transformed(ts, asm, input).Failure? <==> ts != []
    ensures ts != [] ==> Transformed(ts, asm, input).error == MalformedClass
  {
  }

  /**
   * A single transformer that always wraps its parent in one layer: the
   * output is the writer's encoding of the rewritten class, with that
   * transformer's own settings.
   */
  lemma SingleLayerIsWritten(t: ClasspathTransformer, rewrite: ClassFile -> ClassFile, asm: Asm, input: Bytes)
    requires forall parent :: t.visitor(parent) == Some(Layer(rewrite, parent))
    ensures asm.read(input).None? ==> Transformed([t], asm, input) == Failure(MalformedClass)
    ensures asm.read(input).Some? ==>
      Transformed([t], asm, input)
        == Success(asm.write(if t.canCopyConstantPool then Some(input) else None, t.computeFlags, rewrite(asm.read(input).value)))
  {
    var ts := [t];
    assert ts[1..] == [] && ts[..|ts| - 1] == [];
    assert ChainOver(ts, Writer) == Attach(t, Writer) == Layer(rewrite, Writer);
    assert CombinedFlags(ts) == 0 | t.computeFlags == t.computeFlags;
    assert CopyConstantPool(ts) == t.canCopyConstantPool;
    if asm.read(input).Some? {
      assert Deliver(Layer(rewrite, Writer), asm.read(input).value) == rewrite(asm.read(input).value);
    }
    ContributionIsWritten(ts, asm, input);
  }

  /** The global registry `ClasspathTransformerManager` (a Kotlin `object`). */
  class ClasspathTransformerManager {
    var transformers: seq<ClasspathTransformer>
    const asm: Asm

    constructor (asm: Asm)
      ensures transformers == [] && this.asm == asm
    {
      transformers := [];
      this.asm := asm;
    }

    /** `transformers += ts`. */
    method Register(ts: seq<ClasspathTransformer>)
      modifies this
      ensures transformers == old(transformers) + ts
    {
      transformers := transformers + ts;
    }

    method Transform(input: Bytes) returns (output: Result<Bytes, TransformError>)
      ensures output == Transformed(transformers, asm, input)
      ensures transformers == [] ==> output == Success(input)
    {
      output := TransformBytes(transformers, asm, input);
    }
  }
}
