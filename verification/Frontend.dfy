// From source text to artifact and receipt: the entry points that take text.
module Frontend {
  import opened Prelude
  import opened Ast
  import opened CheckRules
  import opened Bytecode
  import opened Semantics
  import opened Artifact
  import opened CheckedStructure
  import opened Pipeline
  import opened Tokens
  import opened Grammar
  import opened SyntaxRoundTrip
  import opened Toolchain
  import Encoding
  import Parser

  const DEFAULT_INSTRUCTION_BUDGET: u64 := 1_000_000

  /** What compile_source delivers, in terms of the grammar, the static rules and the bounds on encodings. */
  ghost function CompiledSource(source: string): Option<BytecodeProgram> {
    match ParseSource(source)
    case None => None
    case Some(p) =>
      if CheckAccepts(p) && CompileProgram(p).Some? && Encoding.ArtifactEncodes(CompileProgram(p).value) then CompileProgram(p) else None
  }

  /** Parse, check, compile and verify: an artifact comes out exactly for accepted sources that can be encoded. */
  method CompileSource(source: string) returns (r: Option<BytecodeProgram>)
    ensures r == CompiledSource(source)
    ensures r.Some? ==> ArtifactOk(r.value)
  {
    var p := Parser.Parse(source);
    if p.None? {
      return None;
    }
    SourceIsNamed(source);
    r := Compile(p.value);
  }

  /** Formatting a source, where the result is within the byte limit, does not change its artifact. */
  lemma FormattingKeepsTheArtifact(source: string)
    requires FormatSource(source).Some? && Utf8Length(FormatSource(source).value) <= MAX_SOURCE_BYTES
    ensures CompiledSource(FormatSource(source).value) == CompiledSource(source)
  {
    FormatRoundTrip(source, ParseSource(source).value);
  }

  /**
   * Compile and run a source under the default budget: no receipt without an artifact, and
   * otherwise the receipt of the artifact's entry function.
   */
  method ExecuteSource(source: string, ghost k: nat) returns (receipt: Option<FunctionReceipt>)
    requires CompiledSource(source).Some? ==> k >= |CompiledSource(source).value.functions|
    ensures receipt.Some? == CompiledSource(source).Some?
    ensures receipt.Some? ==>
              var p := CompiledSource(source).value;
              && p.entryFunction < |p.canonicalAst.functions|
              && Reports(p, p.entryFunction, receipt.value,
                         EvalFunction(p.canonicalAst, p.entryFunction, [], [], k), DEFAULT_INSTRUCTION_BUDGET)
  {
    var artifact := CompileSource(source);
    if artifact.None? {
      return None;
    }
    var p := artifact.value;
    CompiledEntry(p.canonicalAst, p);
    CompiledInOrder(p, p.entryFunction);
    var r := RunVerified(p, p.entryFunction, [], DEFAULT_INSTRUCTION_BUDGET, k);
    receipt := Some(r);
  }
}
