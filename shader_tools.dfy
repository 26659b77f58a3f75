/** Shader build bookkeeping: reading a shader source file into a terminated character buffer,
    releasing it, and building a program from two to four stages. The GL driver is seen through the
    sequence of calls made to it, with the compile and link outcomes as oracles. */
module ShaderTools {
  import opened Wrappers
  import opened Sequences

  // ---------------------------------------------------------------------------------------------
  // Files and the input stream

  /** A file as an ASCII input stream sees it: the length seek/tell report, and the characters
      get() delivers (text mode may strip some, so there can be fewer than `length`). */
  datatype FileData = FileData(length: nat, text: seq<char>)

  /** The stream never delivers more characters than the reported length. */
  predicate TextFits(f: FileData) {
    |f.text| <= f.length
  }

  /** The file-system contents: file name to file. */
  type FileSystem = map<string, FileData>

  /** The terminator written after the characters read. */
  const Nul: char := 0 as char
  /** The character get() yields at end of file (EOF stored into a char). */
  const EofChar: char := 255 as char

  /** An input file stream opened for reading: position and the fail/eof state bits. */
  class InputFile {
    const data: FileData
    var pos: nat
    var failBit: bool
    var eofBit: bool

    predicate Good()
      reads this
    {
      !failBit && !eofBit
    }

    /** open(): a missing file leaves the stream failed and empty. */
    constructor Open(fs: FileSystem, name: string)
      ensures data == (if name in fs then fs[name] else FileData(0, []))
      ensures failBit <==> name !in fs
      ensures pos == 0 && !eofBit
    {
      data := if name in fs then fs[name] else FileData(0, []);
      failBit := name !in fs;
      eofBit := false;
      pos := 0;
    }

    /** get(): the next character, or EofChar with the fail bit (and, at the end of the text, the
        eof bit) set. */
    method Get() returns (c: char)
      modifies this`pos, this`failBit, this`eofBit
      ensures old(Good()) && old(pos) < |data.text| ==>
                c == data.text[old(pos)] && pos == old(pos) + 1 &&
                failBit == old(failBit) && eofBit == old(eofBit)
      ensures old(Good()) && old(pos) >= |data.text| ==>
                c == EofChar && pos == old(pos) && failBit && eofBit
      ensures !old(Good()) ==>
                c == EofChar && pos == old(pos) && failBit && eofBit == old(eofBit)
    {
      if Good() && pos < |data.text| {
        c := data.text[pos];
        pos := pos + 1;
      } else {
        c := EofChar;
        if Good() {
          eofBit := true;
        }
        failBit := true;
      }
    }
  }

  /** getFileLength: 0 for a stream that is not good; otherwise the file length, with the stream
      rewound to its start. */
  method GetFileLength(file: InputFile) returns (len: nat)
    modifies file`pos
    ensures !file.Good() ==> len == 0 && file.pos == old(file.pos)
    ensures file.Good() ==> len == file.data.length && file.pos == 0
  {
    if !file.Good() {
      return 0;
    }
    len := file.data.length;
    file.pos := 0;
  }

  // ---------------------------------------------------------------------------------------------
  // Source buffers

  /** The character buffers obtained with new[] and not yet released with delete[]. */
  class SourceHeap {
    var live: set<array<char>>

    constructor ()
      ensures live == {}
    {
      live := {};
    }
  }

  /** A file name that loadshader turns into a buffer: the file exists and is not empty. */
  predicate Loads(fs: FileSystem, name: string) {
    name in fs && fs[name].length > 0
  }

  /** loadshader: null when the file cannot be opened or is empty; otherwise a fresh buffer of
      length + 1 characters holding the characters read, terminated right after them. */
  method LoadShader(heap: SourceHeap, fs: FileSystem, filename: string) returns (source: array?<char>)
    requires filename in fs ==> TextFits(fs[filename])
    modifies heap
    ensures source == null <==> !Loads(fs, filename)
    ensures source == null ==> heap.live == old(heap.live)
    ensures source != null ==>
              && fresh(source)
              && heap.live == old(heap.live) + {source}
              && source.Length == fs[filename].length + 1
              && source[..|fs[filename].text|] == fs[filename].text
              && source[|fs[filename].text|] == Nul
              && source[fs[filename].length] == Nul
  {
    var file := new InputFile.Open(fs, filename);
    if file.failBit {
      return null;
    }
    var len := GetFileLength(file);
    if len == 0 {
      return null;
    }
    source := new char[len + 1];
    heap.live := heap.live + {source};
    source[len] := Nul;

    ghost var text := file.data.text;
    var i: nat := 0;
    while file.Good()
      invariant heap.live == old(heap.live) + {source}
      invariant file.data == fs[filename] && text == file.data.text
      invariant i == file.pos <= |text| <= len
      invariant file.Good() || (file.eofBit && i == |text|)
      invariant source[..i] == text[..i]
      invariant |text| < len ==> source[len] == Nul
      decreases |text| - file.pos, if file.Good() then 1 else 0
    {
      var c := file.Get();
      source[i] := c;
      if !file.eofBit {
        i := i + 1;
      }
    }
    source[i] := Nul;
    assert source[..|text|] == text[..|text|];
  }

  /** unloadshader: the buffer the pointer refers to is released if there is one, and the pointer
      is reset to null either way. */
  method UnloadShader(heap: SourceHeap, sourceRef: array<array?<char>>)
    requires sourceRef.Length >= 1
    requires sourceRef[0] != null ==> sourceRef[0] in heap.live
    modifies heap, sourceRef
    ensures sourceRef[0] == null
    ensures sourceRef[1..] == old(sourceRef[1..])
    ensures old(sourceRef[0]) == null ==> heap.live == old(heap.live)
    ensures old(sourceRef[0]) != null ==> heap.live == old(heap.live) - {old(sourceRef[0])}
  {
    if sourceRef[0] != null {
      heap.live := heap.live - {sourceRef[0]};
    }
    sourceRef[0] := null;
  }

  // ---------------------------------------------------------------------------------------------
  // The GL driver

  datatype StageKind = Vertex | Fragment | TessControl | TessEval

  /** The GL calls compileShaders makes, with the object names they act on. glShaderSource is
      recorded by whether the one string handed over was a null pointer. */
  datatype GLCall =
    | CreateShaderCall(shader: nat, kind: StageKind)
    | ShaderSourceCall(shader: nat, hasSource: bool)
    | CompileShaderCall(shader: nat)
    | CreateProgramCall(program: nat)
    | AttachShaderCall(program: nat, shader: nat)
    | LinkProgramCall(program: nat)
    | DeleteShaderCall(shader: nat)

  /** The largest object name a call mentions. */
  function MaxName(call: GLCall): nat {
    match call
    case CreateShaderCall(shader, _) => shader
    case ShaderSourceCall(shader, _) => shader
    case CompileShaderCall(shader) => shader
    case CreateProgramCall(program) => program
    case AttachShaderCall(program, shader) => if program < shader then shader else program
    case LinkProgramCall(program) => program
    case DeleteShaderCall(shader) => shader
  }

  /** The diagnostics checkShaderCompilation and checkProgramLink print. */
  datatype Diagnostic = CompileError(shaderName: string) | LinkError(program: nat)

  /** The name compileShaders reports a stage under. */
  function StageName(kind: StageKind): string {
    match kind
    case Vertex => "vertex_shader"
    case Fragment => "fragment_shader"
    case TessControl => "tess_control_shader"
    case TessEval => "tess_eval_shader"
  }

  /** The driver as compileShaders sees it: the calls made so far and the diagnostics printed.
      Shader and program names share one namespace, are never 0 and are not handed out twice.
      Whether a compilation or a link succeeds is decided by the driver: the oracles
      `compileStatus` and `linkStatus`. */
  class GLContext {
    var nextName: nat
    var calls: seq<GLCall>
    var log: seq<Diagnostic>
    const compileStatus: nat -> bool
    const linkStatus: nat -> bool

    /** Every name used so far was handed out before `nextName`. */
    ghost predicate Valid()
      reads this
    {
      0 < nextName && forall call :: call in calls ==> MaxName(call) < nextName
    }

    constructor (compileOracle: nat -> bool, linkOracle: nat -> bool)
      ensures Valid()
      ensures compileStatus == compileOracle && linkStatus == linkOracle
      ensures calls == [] && log == []
    {
      nextName := 1;
      calls := [];
      log := [];
      compileStatus := compileOracle;
      linkStatus := linkOracle;
    }

    /** glCreateShader: a new name, unused so far, for a shader object of the given stage. */
    method CreateShader(kind: StageKind) returns (shader: nat)
      requires Valid()
      modifies this`nextName, this`calls
      ensures Valid()
      ensures 0 < shader && shader == old(nextName) && nextName == shader + 1
      ensures forall call :: call in old(calls) ==> MaxName(call) < shader
      ensures calls == old(calls) + [CreateShaderCall(shader, kind)]
    {
      shader := nextName;
      nextName := nextName + 1;
      calls := calls + [CreateShaderCall(shader, kind)];
    }

    /** glShaderSource with one string, which may be a null pointer. */
    method ShaderSource(shader: nat, source: array?<char>)
      requires Valid() && shader < nextName
      modifies this`calls
      ensures Valid()
      ensures calls == old(calls) + [ShaderSourceCall(shader, source != null)]
    {
      calls := calls + [ShaderSourceCall(shader, source != null)];
    }

    /** glCompileShader. */
    method CompileShader(shader: nat)
      requires Valid() && shader < nextName
      modifies this`calls
      ensures Valid()
      ensures calls == old(calls) + [CompileShaderCall(shader)]
    {
      calls := calls + [CompileShaderCall(shader)];
    }

    /** glCreateProgram: a new name, unused so far, for a program object. */
    method CreateProgram() returns (program: nat)
      requires Valid()
      modifies this`nextName, this`calls
      ensures Valid()
      ensures 0 < program && program == old(nextName) && nextName == program + 1
      ensures forall call :: call in old(calls) ==> MaxName(call) < program
      ensures calls == old(calls) + [CreateProgramCall(program)]
    {
      program := nextName;
      nextName := nextName + 1;
      calls := calls + [CreateProgramCall(program)];
    }

    /** glAttachShader. */
    method AttachShader(program: nat, shader: nat)
      requires Valid() && program < nextName && shader < nextName
      modifies this`calls
      ensures Valid()
      ensures calls == old(calls) + [AttachShaderCall(program, shader)]
    {
      calls := calls + [AttachShaderCall(program, shader)];
    }

    /** glLinkProgram. */
    method LinkProgram(program: nat)
      requires Valid() && program < nextName
      modifies this`calls
      ensures Valid()
      ensures calls == old(calls) + [LinkProgramCall(program)]
    {
      calls := calls + [LinkProgramCall(program)];
    }

    /** glDeleteShader. */
    method DeleteShader(shader: nat)
      requires Valid() && shader < nextName
      modifies this`calls
      ensures Valid()
      ensures calls == old(calls) + [DeleteShaderCall(shader)]
    {
      calls := calls + [DeleteShaderCall(shader)];
    }
  }

  /** What checkShaderCompilation prints for one shader: nothing when it compiled. */
  function CompileReport(compiledOk: bool, shaderName: string): (log: seq<Diagnostic>)
    ensures compiledOk <==> log == []
    ensures !compiledOk ==> log == [CompileError(shaderName)]
  {
    if compiledOk then [] else [CompileError(shaderName)]
  }

  /** What checkProgramLink prints for a program: nothing when it linked. */
  function LinkReport(linkedOk: bool, program: nat): (log: seq<Diagnostic>)
    ensures linkedOk <==> log == []
    ensures !linkedOk ==> log == [LinkError(program)]
  {
    if linkedOk then [] else [LinkError(program)]
  }

  /** checkShaderCompilation: a failed compilation is reported, never fatal. */
  method CheckShaderCompilation(gl: GLContext, shader: nat, shaderName: string)
    modifies gl`log
    ensures gl.log == old(gl.log) + CompileReport(gl.compileStatus(shader), shaderName)
  {
    if !gl.compileStatus(shader) {
      gl.log := gl.log + [CompileError(shaderName)];
    }
  }

  /** checkProgramLink: a failed link is reported, never fatal. */
  method CheckProgramLink(gl: GLContext, program: nat)
    modifies gl`log
    ensures gl.log == old(gl.log) + LinkReport(gl.linkStatus(program), program)
  {
    if !gl.linkStatus(program) {
      gl.log := gl.log + [LinkError(program)];
    }
  }

  // ---------------------------------------------------------------------------------------------
  // Stage orders and the compile report

  function Optional(present: bool, kind: StageKind): seq<StageKind> {
    if present then [kind] else []
  }

  /** The order compileShaders creates (and deletes) the stages in. */
  function CreationOrder(hasTessControl: bool, hasTessEval: bool): (kinds: seq<StageKind>)
    ensures |kinds| == 2 + |Optional(hasTessControl, TessControl)| + |Optional(hasTessEval, TessEval)|
    ensures kinds[0] == Vertex && kinds[1] == Fragment
    ensures TessControl in kinds <==> hasTessControl
    ensures TessEval in kinds <==> hasTessEval
  {
    [Vertex, Fragment] + Optional(hasTessControl, TessControl) + Optional(hasTessEval, TessEval)
  }

  /** The order compileShaders attaches the stages in: vertex, then the tessellation stages that
      exist (control before evaluation), fragment last. */
  function AttachOrder(hasTessControl: bool, hasTessEval: bool): (kinds: seq<StageKind>)
    ensures |kinds| == |CreationOrder(hasTessControl, hasTessEval)|
    ensures kinds[0] == Vertex && kinds[|kinds| - 1] == Fragment
    ensures TessControl in kinds <==> hasTessControl
    ensures TessEval in kinds <==> hasTessEval
    ensures hasTessControl && hasTessEval ==> kinds == [Vertex, TessControl, TessEval, Fragment]
  {
    [Vertex] + Optional(hasTessControl, TessControl) + Optional(hasTessEval, TessEval) + [Fragment]
  }

  /** Each stage is attached exactly once: the attach order rearranges the creation order. */
  lemma AttachOrderPermutesCreation(hasTessControl: bool, hasTessEval: bool)
    ensures multiset(AttachOrder(hasTessControl, hasTessEval)) ==
            multiset(CreationOrder(hasTessControl, hasTessEval))
  {
    var tc, te := Optional(hasTessControl, TessControl), Optional(hasTessEval, TessEval);
    assert AttachOrder(hasTessControl, hasTessEval) == [Vertex] + tc + te + [Fragment];
    assert CreationOrder(hasTessControl, hasTessEval) == [Vertex, Fragment] + tc + te;
    assert [Vertex, Fragment] == [Vertex] + [Fragment];
  }

  /** The compile diagnostics for stages `kinds` created under consecutive names from `first`,
      in creation order. */
  function CompileLog(compileStatus: nat -> bool, first: nat, kinds: seq<StageKind>): (log: seq<Diagnostic>)
    ensures |log| <= |kinds|
  {
    if kinds == [] then []
    else
      var n := |kinds| - 1;
      CompileLog(compileStatus, first, kinds[..n]) + CompileReport(compileStatus(first + n), StageName(kinds[n]))
  }

  /** The compile report lists exactly the stages that failed: it is empty exactly when every
      stage compiled, every stage that failed is reported under its own name, and every
      diagnostic is the report of a stage that failed. */
  lemma CompileLogReportsFailures(compileStatus: nat -> bool, first: nat, kinds: seq<StageKind>)
    ensures CompileLog(compileStatus, first, kinds) == [] <==>
            forall name :: first <= name < first + |kinds| ==> compileStatus(name)
    ensures forall i :: 0 <= i < |kinds| && !compileStatus(first + i) ==>
              CompileError(StageName(kinds[i])) in CompileLog(compileStatus, first, kinds)
    ensures forall d :: d in CompileLog(compileStatus, first, kinds) ==>
              exists i :: 0 <= i < |kinds| && !compileStatus(first + i) && d == CompileError(StageName(kinds[i]))
    ensures forall d :: d in CompileLog(compileStatus, first, kinds) ==>
              d.CompileError? && d.shaderName in {"vertex_shader", "fragment_shader", "tess_control_shader", "tess_eval_shader"}
  {
    CompileLogEmpty(compileStatus, first, kinds);
    CompileLogHasFailures(compileStatus, first, kinds);
    CompileLogOnlyFailures(compileStatus, first, kinds);
  }

  lemma CompileLogEmpty(compileStatus: nat -> bool, first: nat, kinds: seq<StageKind>)
    ensures CompileLog(compileStatus, first, kinds) == [] <==>
            forall name :: first <= name < first + |kinds| ==> compileStatus(name)
  {
    var log := CompileLog(compileStatus, first, kinds);
    if log == [] {
      forall name | first <= name < first + |kinds|
        ensures compileStatus(name)
      {
        if !compileStatus(name) {
          CompileLogHasFailure(compileStatus, first, kinds, name - first);
        }
      }
    } else {
      CompileLogOnlyFailures(compileStatus, first, kinds);
      assert log[0] in log;
    }
  }

  lemma CompileLogHasFailures(compileStatus: nat -> bool, first: nat, kinds: seq<StageKind>)
    ensures forall i :: 0 <= i < |kinds| && !compileStatus(first + i) ==>
              CompileError(StageName(kinds[i])) in CompileLog(compileStatus, first, kinds)
  {
    forall i | 0 <= i < |kinds| && !compileStatus(first + i)
      ensures CompileError(StageName(kinds[i])) in CompileLog(compileStatus, first, kinds)
    {
      CompileLogHasFailure(compileStatus, first, kinds, i);
    }
  }

  /** The compile log of a non-empty stage list: the log of all but the last stage, then the last
      stage's report. */
  lemma CompileLogLast(compileStatus: nat -> bool, first: nat, kinds: seq<StageKind>)
    requires kinds != []
    ensures CompileLog(compileStatus, first, kinds) ==
            CompileLog(compileStatus, first, kinds[..|kinds| - 1])
            + CompileReport(compileStatus(first + |kinds| - 1), StageName(kinds[|kinds| - 1]))
  {
  }

  /** The stage at position i, if it failed, is reported under its own name. */
  lemma {:induction false} CompileLogHasFailure(compileStatus: nat -> bool, first: nat, kinds: seq<StageKind>, i: nat)
    requires i < |kinds| && !compileStatus(first + i)
    ensures CompileError(StageName(kinds[i])) in CompileLog(compileStatus, first, kinds)
  {
    var n := |kinds| - 1;
    var prefix := kinds[..n];
    CompileLogLast(compileStatus, first, kinds);
    if i < n {
      CompileLogHasFailure(compileStatus, first, prefix, i);
      assert prefix[i] == kinds[i];
    }
  }

  lemma {:induction false} CompileLogOnlyFailures(compileStatus: nat -> bool, first: nat, kinds: seq<StageKind>)
    ensures forall d :: d in CompileLog(compileStatus, first, kinds) ==>
              exists i :: 0 <= i < |kinds| && !compileStatus(first + i) && d == CompileError(StageName(kinds[i]))
  {
    if kinds != [] {
      var n := |kinds| - 1;
      var prefix := kinds[..n];
      CompileLogOnlyFailures(compileStatus, first, prefix);
      CompileLogLast(compileStatus, first, kinds);
      var report := CompileReport(compileStatus(first + n), StageName(kinds[n]));
      forall d | d in CompileLog(compileStatus, first, kinds)
        ensures exists i :: 0 <= i < |kinds| && !compileStatus(first + i) && d == CompileError(StageName(kinds[i]))
      {
        if d in report {
          assert !compileStatus(first + n) && d == CompileError(StageName(kinds[n]));
        } else {
          assert d in CompileLog(compileStatus, first, prefix);
          var i :| 0 <= i < |prefix| && !compileStatus(first + i) && d == CompileError(StageName(prefix[i]));
          assert prefix[i] == kinds[i];
        }
      }
    }
  }

  /** Reporting one more stage appends its diagnostic. */
  lemma CompileLogAppend(compileStatus: nat -> bool, first: nat, kinds: seq<StageKind>, kind: StageKind)
    ensures CompileLog(compileStatus, first, kinds + [kind]) ==
            CompileLog(compileStatus, first, kinds) + CompileReport(compileStatus(first + |kinds|), StageName(kind))
  {
    assert (kinds + [kind])[..|kinds|] == kinds;
  }

  // ---------------------------------------------------------------------------------------------
  // compileShaders: the calls it makes

  /** The name of an optional stage object, if it was built (0 stands for "not built"). */
  function Present(shader: nat): seq<nat> {
    if shader != 0 then [shader] else []
  }

  /** The names compileShaders gives its tessellation stage objects and its program, counting
      from the first name the driver hands out during the call. */
  function TessControlName(first: nat, hasTessControl: bool): nat {
    if hasTessControl then first + 2 else 0
  }

  function TessEvalName(first: nat, hasTessControl: bool, hasTessEval: bool): nat {
    if !hasTessEval then 0 else if hasTessControl then first + 3 else first + 2
  }

  function ProgramName(first: nat, hasTessControl: bool, hasTessEval: bool): nat {
    first + |CreationOrder(hasTessControl, hasTessEval)|
  }

  /** The names of the stage objects, in the order they are created: consecutive from `first`. */
  function StageNames(first: nat, hasTessControl: bool, hasTessEval: bool): (names: seq<nat>)
    ensures |names| == |CreationOrder(hasTessControl, hasTessEval)|
    ensures forall i :: 0 <= i < |names| ==> names[i] == first + i
  {
    [first, first + 1] + Present(TessControlName(first, hasTessControl))
                       + Present(TessEvalName(first, hasTessControl, hasTessEval))
  }

  /** Creating, sourcing and compiling one stage object. */
  function StageCalls(shader: nat, kind: StageKind, hasSource: bool): seq<GLCall> {
    [CreateShaderCall(shader, kind), ShaderSourceCall(shader, hasSource), CompileShaderCall(shader)]
  }

  /** An optional stage: built, with its source, only when it has a name. */
  function OptionalStageCalls(shader: nat, kind: StageKind): seq<GLCall> {
    if shader != 0 then StageCalls(shader, kind, true) else []
  }

  function AttachPresent(program: nat, shader: nat): seq<GLCall> {
    if shader != 0 then [AttachShaderCall(program, shader)] else []
  }

  function DeletePresent(shader: nat): seq<GLCall> {
    if shader != 0 then [DeleteShaderCall(shader)] else []
  }

  /** Creating the program, attaching vertex, the tessellation stages and fragment, linking. */
  function LinkCalls(program: nat, vertexShader: nat, fragmentShader: nat,
                     tessControlShader: nat, tessEvalShader: nat): seq<GLCall> {
    [CreateProgramCall(program), AttachShaderCall(program, vertexShader)]
      + AttachPresent(program, tessControlShader) + AttachPresent(program, tessEvalShader)
      + [AttachShaderCall(program, fragmentShader), LinkProgramCall(program)]
  }

  /** Deleting the stage objects, in creation order. */
  function DeleteCalls(vertexShader: nat, fragmentShader: nat, tessControlShader: nat, tessEvalShader: nat)
    : seq<GLCall> {
    [DeleteShaderCall(vertexShader), DeleteShaderCall(fragmentShader)]
      + DeletePresent(tessControlShader) + DeletePresent(tessEvalShader)
  }

  /** The GL calls of one compileShaders call, when the driver hands out names from `first`, the
      vertex and fragment sources loaded or not, and the tessellation sources loaded or not. */
  function CompileCalls(first: nat, hasVertexSource: bool, hasFragmentSource: bool,
                        hasTessControl: bool, hasTessEval: bool): (calls: seq<GLCall>)
    ensures |calls| == 5 * |CreationOrder(hasTessControl, hasTessEval)| + 2
    ensures calls[0] == CreateShaderCall(first, Vertex)
    ensures calls[|calls| - 1] == DeleteShaderCall(ProgramName(first, hasTessControl, hasTessEval) - 1)
  {
    var tessControlShader := TessControlName(first, hasTessControl);
    var tessEvalShader := TessEvalName(first, hasTessControl, hasTessEval);
    StageCalls(first, Vertex, hasVertexSource) + StageCalls(first + 1, Fragment, hasFragmentSource)
      + OptionalStageCalls(tessControlShader, TessControl) + OptionalStageCalls(tessEvalShader, TessEval)
      + LinkCalls(ProgramName(first, hasTessControl, hasTessEval), first, first + 1, tessControlShader, tessEvalShader)
      + DeleteCalls(first, first + 1, tessControlShader, tessEvalShader)
  }

  // ---------------------------------------------------------------------------------------------
  // Reading a call sequence

  /** What `pick` takes from each call, in call order. */
  function Collect<U>(calls: seq<GLCall>, pick: GLCall -> seq<U>): seq<U> {
    if calls == [] then [] else pick(calls[0]) + Collect(calls[1..], pick)
  }

  /** Reading is compositional: what a + b yields is what a yields, then what b yields. */
  lemma {:induction false} CollectAppend<U>(a: seq<GLCall>, b: seq<GLCall>, pick: GLCall -> seq<U>)
    ensures Collect(a + b, pick) == Collect(a, pick) + Collect(b, pick)
  {
    if a == [] {
      assert a + b == b;
    } else {
      assert (a + b)[1..] == a[1..] + b;
      CollectAppend(a[1..], b, pick);
    }
  }

  lemma CollectOne<U>(a: GLCall, pick: GLCall -> seq<U>)
    ensures Collect([a], pick) == pick(a)
  {
    assert [a][1..] == [];
  }

  lemma CollectTwo<U>(a: GLCall, b: GLCall, pick: GLCall -> seq<U>)
    ensures Collect([a, b], pick) == pick(a) + pick(b)
  {
    assert [a, b][1..] == [b];
    CollectOne(b, pick);
  }

  /** The shaders created, with their stages. */
  function CreatedShader(call: GLCall): seq<nat> {
    if call.CreateShaderCall? then [call.shader] else []
  }

  function CreatedKind(call: GLCall): seq<StageKind> {
    if call.CreateShaderCall? then [call.kind] else []
  }

  /** The shaders handed a null source string. */
  function NullSourced(call: GLCall): seq<nat> {
    if call.ShaderSourceCall? && !call.hasSource then [call.shader] else []
  }

  function CompiledShader(call: GLCall): seq<nat> {
    if call.CompileShaderCall? then [call.shader] else []
  }

  function DeletedShader(call: GLCall): seq<nat> {
    if call.DeleteShaderCall? then [call.shader] else []
  }

  function CreatedProgram(call: GLCall): seq<nat> {
    if call.CreateProgramCall? then [call.program] else []
  }

  /** The shaders attached, and the programs they are attached to. */
  function AttachedShader(call: GLCall): seq<nat> {
    if call.AttachShaderCall? then [call.shader] else []
  }

  function AttachTarget(call: GLCall): seq<nat> {
    if call.AttachShaderCall? then [call.program] else []
  }

  function LinkedProgram(call: GLCall): seq<nat> {
    if call.LinkProgramCall? then [call.program] else []
  }

  // ---------------------------------------------------------------------------------------------
  // What the calls of compileShaders do

  /** Any reading of the calls of compileShaders, block by block. */
  lemma CollectCompileCalls<U>(first: nat, hasVertexSource: bool, hasFragmentSource: bool,
                               hasTessControl: bool, hasTessEval: bool, pick: GLCall -> seq<U>)
    ensures var tc := TessControlName(first, hasTessControl);
            var te := TessEvalName(first, hasTessControl, hasTessEval);
            var program := ProgramName(first, hasTessControl, hasTessEval);
            Collect(CompileCalls(first, hasVertexSource, hasFragmentSource, hasTessControl, hasTessEval), pick) ==
              StageRead(first, Vertex, hasVertexSource, pick) + StageRead(first + 1, Fragment, hasFragmentSource, pick)
              + OptionalStageRead(tc, TessControl, pick) + OptionalStageRead(te, TessEval, pick)
              + LinkRead(program, first, first + 1, tc, te, pick) + DeleteRead(first, first + 1, tc, te, pick)
  {
    var tc := TessControlName(first, hasTessControl);
    var te := TessEvalName(first, hasTessControl, hasTessEval);
    var program := ProgramName(first, hasTessControl, hasTessEval);
    var b1, b2 := StageCalls(first, Vertex, hasVertexSource), StageCalls(first + 1, Fragment, hasFragmentSource);
    var b3, b4 := OptionalStageCalls(tc, TessControl), OptionalStageCalls(te, TessEval);
    var b5 := LinkCalls(program, first, first + 1, tc, te);
    var b6 := DeleteCalls(first, first + 1, tc, te);
    CollectAppend(b1 + b2 + b3 + b4 + b5, b6, pick);
    CollectAppend(b1 + b2 + b3 + b4, b5, pick);
    CollectAppend(b1 + b2 + b3, b4, pick);
    CollectAppend(b1 + b2, b3, pick);
    CollectAppend(b1, b2, pick);
    CollectStageCalls(first, Vertex, hasVertexSource, pick);
    CollectStageCalls(first + 1, Fragment, hasFragmentSource, pick);
    if tc != 0 {
      CollectStageCalls(tc, TessControl, true, pick);
    }
    if te != 0 {
      CollectStageCalls(te, TessEval, true, pick);
    }
    CollectLinkCalls(program, first, first + 1, tc, te, pick);
    CollectDeleteCalls(first, first + 1, tc, te, pick);
  }

  function OptionalStageRead<U>(shader: nat, kind: StageKind, pick: GLCall -> seq<U>): seq<U> {
    if shader != 0 then StageRead(shader, kind, true, pick) else []
  }

  function LinkRead<U>(program: nat, vertexShader: nat, fragmentShader: nat,
                       tessControlShader: nat, tessEvalShader: nat, pick: GLCall -> seq<U>): seq<U> {
    pick(CreateProgramCall(program)) + pick(AttachShaderCall(program, vertexShader))
    + (if tessControlShader != 0 then pick(AttachShaderCall(program, tessControlShader)) else [])
    + (if tessEvalShader != 0 then pick(AttachShaderCall(program, tessEvalShader)) else [])
    + pick(AttachShaderCall(program, fragmentShader)) + pick(LinkProgramCall(program))
  }

  function DeleteRead<U>(vertexShader: nat, fragmentShader: nat, tessControlShader: nat, tessEvalShader: nat,
                         pick: GLCall -> seq<U>): seq<U> {
    pick(DeleteShaderCall(vertexShader)) + pick(DeleteShaderCall(fragmentShader))
    + (if tessControlShader != 0 then pick(DeleteShaderCall(tessControlShader)) else [])
    + (if tessEvalShader != 0 then pick(DeleteShaderCall(tessEvalShader)) else [])
  }

  /** What a reading takes from one stage block. */
  function StageRead<U>(shader: nat, kind: StageKind, hasSource: bool, pick: GLCall -> seq<U>): seq<U> {
    pick(CreateShaderCall(shader, kind)) + pick(ShaderSourceCall(shader, hasSource)) + pick(CompileShaderCall(shader))
  }

  lemma CollectStageCalls<U>(shader: nat, kind: StageKind, hasSource: bool, pick: GLCall -> seq<U>)
    ensures Collect(StageCalls(shader, kind, hasSource), pick) == StageRead(shader, kind, hasSource, pick)
  {
    var calls := StageCalls(shader, kind, hasSource);
    assert calls[1..] == [ShaderSourceCall(shader, hasSource), CompileShaderCall(shader)];
    CollectTwo(ShaderSourceCall(shader, hasSource), CompileShaderCall(shader), pick);
  }

  lemma CollectLinkCalls<U>(program: nat, vertexShader: nat, fragmentShader: nat,
                            tessControlShader: nat, tessEvalShader: nat, pick: GLCall -> seq<U>)
    ensures Collect(LinkCalls(program, vertexShader, fragmentShader, tessControlShader, tessEvalShader), pick) ==
            LinkRead(program, vertexShader, fragmentShader, tessControlShader, tessEvalShader, pick)
  {
    var start := [CreateProgramCall(program), AttachShaderCall(program, vertexShader)];
    var tc, te := AttachPresent(program, tessControlShader), AttachPresent(program, tessEvalShader);
    var finish := [AttachShaderCall(program, fragmentShader), LinkProgramCall(program)];
    CollectAppend(start + tc + te, finish, pick);
    CollectAppend(start + tc, te, pick);
    CollectAppend(start, tc, pick);
    CollectTwo(CreateProgramCall(program), AttachShaderCall(program, vertexShader), pick);
    CollectTwo(AttachShaderCall(program, fragmentShader), LinkProgramCall(program), pick);
    if tessControlShader != 0 {
      CollectOne(AttachShaderCall(program, tessControlShader), pick);
    }
    if tessEvalShader != 0 {
      CollectOne(AttachShaderCall(program, tessEvalShader), pick);
    }
  }

  lemma CollectDeleteCalls<U>(vertexShader: nat, fragmentShader: nat, tessControlShader: nat, tessEvalShader: nat,
                              pick: GLCall -> seq<U>)
    ensures Collect(DeleteCalls(vertexShader, fragmentShader, tessControlShader, tessEvalShader), pick) ==
            DeleteRead(vertexShader, fragmentShader, tessControlShader, tessEvalShader, pick)
  {
    var start := [DeleteShaderCall(vertexShader), DeleteShaderCall(fragmentShader)];
    var tc, te := DeletePresent(tessControlShader), DeletePresent(tessEvalShader);
    CollectAppend(start + tc, te, pick);
    CollectAppend(start, tc, pick);
    CollectTwo(DeleteShaderCall(vertexShader), DeleteShaderCall(fragmentShader), pick);
    if tessControlShader != 0 {
      CollectOne(DeleteShaderCall(tessControlShader), pick);
    }
    if tessEvalShader != 0 {
      CollectOne(DeleteShaderCall(tessEvalShader), pick);
    }
  }

  /** compileShaders creates exactly the stage objects whose sources are present, under
      consecutive new names, in the order vertex, fragment, tessellation control, tessellation
      evaluation. */
  lemma CompileCallsCreateStages(first: nat, hasVertexSource: bool, hasFragmentSource: bool,
                                 hasTessControl: bool, hasTessEval: bool)
    ensures Collect(CompileCalls(first, hasVertexSource, hasFragmentSource, hasTessControl, hasTessEval), CreatedShader)
            == StageNames(first, hasTessControl, hasTessEval)
  {
    var tc, te := TessControlName(first, hasTessControl), TessEvalName(first, hasTessControl, hasTessEval);
    CollectCompileCalls(first, hasVertexSource, hasFragmentSource, hasTessControl, hasTessEval, CreatedShader);
    ReadStageNames(first, hasVertexSource, hasFragmentSource, ProgramName(first, hasTessControl, hasTessEval), tc, te,
                   CreatedShader);
  }

  /** Every stage object created is compiled, once, in creation order; nothing else is. */
  lemma CompileCallsCompileStages(first: nat, hasVertexSource: bool, hasFragmentSource: bool,
                                  hasTessControl: bool, hasTessEval: bool)
    ensures var calls := CompileCalls(first, hasVertexSource, hasFragmentSource, hasTessControl, hasTessEval);
            Collect(calls, CompiledShader) == Collect(calls, CreatedShader)
  {
    var tc, te := TessControlName(first, hasTessControl), TessEvalName(first, hasTessControl, hasTessEval);
    CompileCallsCreateStages(first, hasVertexSource, hasFragmentSource, hasTessControl, hasTessEval);
    CollectCompileCalls(first, hasVertexSource, hasFragmentSource, hasTessControl, hasTessEval, CompiledShader);
    ReadStageNames(first, hasVertexSource, hasFragmentSource, ProgramName(first, hasTessControl, hasTessEval), tc, te,
                   CompiledShader);
  }

  /** The readings that take a stage object's name from exactly one call of its block (its
      creation, or its compilation) list the stage objects. */
  lemma ReadStageNames(first: nat, hasVertexSource: bool, hasFragmentSource: bool, program: nat, tc: nat, te: nat,
                       pick: GLCall -> seq<nat>)
    requires pick == CreatedShader || pick == CompiledShader
    ensures StageRead(first, Vertex, hasVertexSource, pick) + StageRead(first + 1, Fragment, hasFragmentSource, pick)
            + OptionalStageRead(tc, TessControl, pick) + OptionalStageRead(te, TessEval, pick)
            + LinkRead(program, first, first + 1, tc, te, pick) + DeleteRead(first, first + 1, tc, te, pick)
            == [first, first + 1] + Present(tc) + Present(te)
  {
    StageReadsName(first, Vertex, hasVertexSource, pick);
    StageReadsName(first + 1, Fragment, hasFragmentSource, pick);
    OptionalStageReadsName(tc, TessControl, pick);
    OptionalStageReadsName(te, TessEval, pick);
    LinkAndDeleteReadNoName(program, first, first + 1, tc, te, pick);
    assert [first] + [first + 1] == [first, first + 1];
    EmptyAppend([first, first + 1] + Present(tc) + Present(te));
  }

  lemma StageReadsName(shader: nat, kind: StageKind, hasSource: bool, pick: GLCall -> seq<nat>)
    requires pick == CreatedShader || pick == CompiledShader
    ensures StageRead(shader, kind, hasSource, pick) == [shader]
  {
  }

  lemma OptionalStageReadsName(shader: nat, kind: StageKind, pick: GLCall -> seq<nat>)
    requires pick == CreatedShader || pick == CompiledShader
    ensures OptionalStageRead(shader, kind, pick) == Present(shader)
  {
    if shader != 0 {
      StageReadsName(shader, kind, true, pick);
    }
  }

  lemma LinkAndDeleteReadNoName(program: nat, vertexShader: nat, fragmentShader: nat,
                                tessControlShader: nat, tessEvalShader: nat, pick: GLCall -> seq<nat>)
    requires pick == CreatedShader || pick == CompiledShader
    ensures LinkRead(program, vertexShader, fragmentShader, tessControlShader, tessEvalShader, pick) == []
    ensures DeleteRead(vertexShader, fragmentShader, tessControlShader, tessEvalShader, pick) == []
  {
  }

  /** The stage objects are created for the stages in creation order. */
  lemma CompileCallsStageKinds(first: nat, hasVertexSource: bool, hasFragmentSource: bool,
                               hasTessControl: bool, hasTessEval: bool)
    ensures Collect(CompileCalls(first, hasVertexSource, hasFragmentSource, hasTessControl, hasTessEval), CreatedKind)
            == CreationOrder(hasTessControl, hasTessEval)
  {
    var tc, te := TessControlName(first, hasTessControl), TessEvalName(first, hasTessControl, hasTessEval);
    var program := ProgramName(first, hasTessControl, hasTessEval);
    CollectCompileCalls(first, hasVertexSource, hasFragmentSource, hasTessControl, hasTessEval, CreatedKind);
    assert StageRead(first, Vertex, hasVertexSource, CreatedKind) == [Vertex];
    assert StageRead(first + 1, Fragment, hasFragmentSource, CreatedKind) == [Fragment];
    assert OptionalStageRead(tc, TessControl, CreatedKind) == Optional(hasTessControl, TessControl);
    assert OptionalStageRead(te, TessEval, CreatedKind) == Optional(hasTessEval, TessEval);
    assert LinkRead(program, first, first + 1, tc, te, CreatedKind) == [];
    assert DeleteRead(first, first + 1, tc, te, CreatedKind) == [];
    var kinds := CreationOrder(hasTessControl, hasTessEval);
    assert [Vertex] + [Fragment] == [Vertex, Fragment];
    assert kinds + [] + [] == kinds;
  }

  /** Only the vertex and fragment stages can be handed a null source (when their file did not
      load); a tessellation stage is built only from a loaded source. */
  lemma CompileCallsNullSources(first: nat, hasVertexSource: bool, hasFragmentSource: bool,
                                hasTessControl: bool, hasTessEval: bool)
    ensures Collect(CompileCalls(first, hasVertexSource, hasFragmentSource, hasTessControl, hasTessEval), NullSourced) ==
            (if hasVertexSource then [] else [first]) + (if hasFragmentSource then [] else [first + 1])
  {
    CollectCompileCalls(first, hasVertexSource, hasFragmentSource, hasTessControl, hasTessEval, NullSourced);
  }

  /** Every stage object created is deleted again, once, in creation order; nothing else is. The
      deletions are the last calls: each comes after every other call, so after the attachments and
      the link. */
  lemma CompileCallsDeleteStages(first: nat, hasVertexSource: bool, hasFragmentSource: bool,
                                 hasTessControl: bool, hasTessEval: bool)
    ensures var calls := CompileCalls(first, hasVertexSource, hasFragmentSource, hasTessControl, hasTessEval);
            Collect(calls, DeletedShader) == Collect(calls, CreatedShader)
    ensures var calls := CompileCalls(first, hasVertexSource, hasFragmentSource, hasTessControl, hasTessEval);
            forall i, j ::
              0 <= i < |calls| && 0 <= j < |calls| && !calls[i].DeleteShaderCall? && calls[j].DeleteShaderCall? ==> i < j
  {
    CollectCompileCalls(first, hasVertexSource, hasFragmentSource, hasTessControl, hasTessEval, DeletedShader);
    CompileCallsCreateStages(first, hasVertexSource, hasFragmentSource, hasTessControl, hasTessEval);
    CompileCallsDeletesLast(first, hasVertexSource, hasFragmentSource, hasTessControl, hasTessEval);
  }

  predicate NoDeletes(calls: seq<GLCall>) {
    forall k :: 0 <= k < |calls| ==> !calls[k].DeleteShaderCall?
  }

  predicate OnlyDeletes(calls: seq<GLCall>) {
    forall k :: 0 <= k < |calls| ==> calls[k].DeleteShaderCall?
  }

  lemma NoDeletesAppend(a: seq<GLCall>, b: seq<GLCall>)
    requires NoDeletes(a) && NoDeletes(b)
    ensures NoDeletes(a + b)
  {
    forall k | 0 <= k < |a + b|
      ensures !(a + b)[k].DeleteShaderCall?
    {
      if k >= |a| {
        assert (a + b)[k] == b[k - |a|];
      }
    }
  }

  /** Calls without deletions, then deletions only: every deletion comes after every other call. */
  lemma DeletesAfterOthers(before: seq<GLCall>, deletes: seq<GLCall>)
    requires NoDeletes(before) && OnlyDeletes(deletes)
    ensures var calls := before + deletes;
            forall i, j ::
              0 <= i < |calls| && 0 <= j < |calls| && !calls[i].DeleteShaderCall? && calls[j].DeleteShaderCall? ==> i < j
  {
    var calls := before + deletes;
    assert forall k :: 0 <= k < |before| ==> calls[k] == before[k];
    assert forall k :: |before| <= k < |calls| ==> calls[k] == deletes[k - |before|];
  }

  lemma BuildCallsNoDeletes(first: nat, hasVertexSource: bool, hasFragmentSource: bool, tc: nat, te: nat)
    ensures NoDeletes(StageCalls(first, Vertex, hasVertexSource) + StageCalls(first + 1, Fragment, hasFragmentSource)
                      + OptionalStageCalls(tc, TessControl) + OptionalStageCalls(te, TessEval))
  {
    var stages := StageCalls(first, Vertex, hasVertexSource) + StageCalls(first + 1, Fragment, hasFragmentSource);
    var optional := OptionalStageCalls(tc, TessControl) + OptionalStageCalls(te, TessEval);
    assert NoDeletes(stages);
    assert NoDeletes(optional);
    NoDeletesAppend(stages, optional);
    AppendAssoc(stages, OptionalStageCalls(tc, TessControl), OptionalStageCalls(te, TessEval));
  }

  lemma LinkCallsNoDeletes(program: nat, vertexShader: nat, fragmentShader: nat,
                           tessControlShader: nat, tessEvalShader: nat)
    ensures NoDeletes(LinkCalls(program, vertexShader, fragmentShader, tessControlShader, tessEvalShader))
  {
  }

  lemma DeleteCallsOnlyDeletes(vertexShader: nat, fragmentShader: nat, tessControlShader: nat, tessEvalShader: nat)
    ensures OnlyDeletes(DeleteCalls(vertexShader, fragmentShader, tessControlShader, tessEvalShader))
  {
  }

  lemma CompileCallsDeletesLast(first: nat, hasVertexSource: bool, hasFragmentSource: bool,
                                hasTessControl: bool, hasTessEval: bool)
    ensures var calls := CompileCalls(first, hasVertexSource, hasFragmentSource, hasTessControl, hasTessEval);
            forall i, j ::
              0 <= i < |calls| && 0 <= j < |calls| && !calls[i].DeleteShaderCall? && calls[j].DeleteShaderCall? ==> i < j
  {
    var tc, te := TessControlName(first, hasTessControl), TessEvalName(first, hasTessControl, hasTessEval);
    var program := ProgramName(first, hasTessControl, hasTessEval);
    var build := StageCalls(first, Vertex, hasVertexSource) + StageCalls(first + 1, Fragment, hasFragmentSource)
                 + OptionalStageCalls(tc, TessControl) + OptionalStageCalls(te, TessEval);
    var link := LinkCalls(program, first, first + 1, tc, te);
    BuildCallsNoDeletes(first, hasVertexSource, hasFragmentSource, tc, te);
    LinkCallsNoDeletes(program, first, first + 1, tc, te);
    NoDeletesAppend(build, link);
    DeleteCallsOnlyDeletes(first, first + 1, tc, te);
    DeletesAfterOthers(build + link, DeleteCalls(first, first + 1, tc, te));
  }


  /** One program is created and linked, under the next name after the stages. */
  lemma CompileCallsLinkProgram(first: nat, hasVertexSource: bool, hasFragmentSource: bool,
                                hasTessControl: bool, hasTessEval: bool)
    ensures var calls := CompileCalls(first, hasVertexSource, hasFragmentSource, hasTessControl, hasTessEval);
            var program := ProgramName(first, hasTessControl, hasTessEval);
            && Collect(calls, CreatedProgram) == [program]
            && Collect(calls, LinkedProgram) == [program]
            && forall shader :: shader in StageNames(first, hasTessControl, hasTessEval) ==> first <= shader < program
  {
    CollectCompileCalls(first, hasVertexSource, hasFragmentSource, hasTessControl, hasTessEval, CreatedProgram);
    CollectCompileCalls(first, hasVertexSource, hasFragmentSource, hasTessControl, hasTessEval, LinkedProgram);
  }

  /** Every stage is attached, once: vertex first, fragment last, the tessellation stages in
      between in creation order; so the stages attached are exactly the stages created. */
  lemma CompileCallsAttachStages(first: nat, hasVertexSource: bool, hasFragmentSource: bool,
                                 hasTessControl: bool, hasTessEval: bool)
    ensures var calls := CompileCalls(first, hasVertexSource, hasFragmentSource, hasTessControl, hasTessEval);
            var stages := StageNames(first, hasTessControl, hasTessEval);
            && Collect(calls, AttachedShader) == [stages[0]] + stages[2..] + [stages[1]]
            && multiset(Collect(calls, AttachedShader)) == multiset(Collect(calls, CreatedShader))
  {
    var tc, te := TessControlName(first, hasTessControl), TessEvalName(first, hasTessControl, hasTessEval);
    CompileCallsAttached(first, hasVertexSource, hasFragmentSource, hasTessControl, hasTessEval);
    CompileCallsCreateStages(first, hasVertexSource, hasFragmentSource, hasTessControl, hasTessEval);
    StageNamesSplit(first, hasTessControl, hasTessEval);
    MoveSecondToBack(first, first + 1, Present(tc) + Present(te));
  }

  lemma CompileCallsAttached(first: nat, hasVertexSource: bool, hasFragmentSource: bool,
                             hasTessControl: bool, hasTessEval: bool)
    ensures var stages := StageNames(first, hasTessControl, hasTessEval);
            Collect(CompileCalls(first, hasVertexSource, hasFragmentSource, hasTessControl, hasTessEval), AttachedShader)
            == [stages[0]] + stages[2..] + [stages[1]]
  {
    var tc, te := TessControlName(first, hasTessControl), TessEvalName(first, hasTessControl, hasTessEval);
    var program := ProgramName(first, hasTessControl, hasTessEval);
    CollectCompileCalls(first, hasVertexSource, hasFragmentSource, hasTessControl, hasTessEval, AttachedShader);
    ReadAttachedShader(first, hasVertexSource, hasFragmentSource, program, tc, te);
    StageNamesSplit(first, hasTessControl, hasTessEval);
  }

  /** The objects `attached`, named consecutively from `first` in creation order `kinds`, are
      attached in the stage order `order`: the p-th of them was created for the stage order[p]. */
  predicate AttachedInOrder(first: nat, attached: seq<nat>, kinds: seq<StageKind>, order: seq<StageKind>) {
    && |attached| == |order|
    && forall p :: 0 <= p < |attached| ==>
         first <= attached[p] < first + |kinds| && kinds[attached[p] - first] == order[p]
  }

  /** The objects attached are the stages of AttachOrder: the p-th object attached was created
      for the stage AttachOrder lists at position p. */
  lemma CompileCallsAttachKinds(first: nat, hasVertexSource: bool, hasFragmentSource: bool,
                                hasTessControl: bool, hasTessEval: bool)
    ensures AttachedInOrder(first,
                            Collect(CompileCalls(first, hasVertexSource, hasFragmentSource, hasTessControl, hasTessEval),
                                    AttachedShader),
                            CreationOrder(hasTessControl, hasTessEval), AttachOrder(hasTessControl, hasTessEval))
  {
    CompileCallsAttached(first, hasVertexSource, hasFragmentSource, hasTessControl, hasTessEval);
    var tess := Optional(hasTessControl, TessControl) + Optional(hasTessEval, TessEval);
    OrderShapes(hasTessControl, hasTessEval);
    MovedStageKinds(first, StageNames(first, hasTessControl, hasTessEval), tess,
                    Collect(CompileCalls(first, hasVertexSource, hasFragmentSource, hasTessControl, hasTessEval),
                            AttachedShader),
                    CreationOrder(hasTessControl, hasTessEval), AttachOrder(hasTessControl, hasTessEval));
  }

  /** Both stage orders around the tessellation stages. */
  lemma OrderShapes(hasTessControl: bool, hasTessEval: bool)
    ensures var tess := Optional(hasTessControl, TessControl) + Optional(hasTessEval, TessEval);
            && CreationOrder(hasTessControl, hasTessEval) == [Vertex, Fragment] + tess
            && AttachOrder(hasTessControl, hasTessEval) == [Vertex] + tess + [Fragment]
  {
    AppendAssoc([Vertex, Fragment], Optional(hasTessControl, TessControl), Optional(hasTessEval, TessEval));
    AppendAssoc([Vertex], Optional(hasTessControl, TessControl), Optional(hasTessEval, TessEval));
  }

  /** Moving the second of consecutively named stages to the back moves its kind to the back. */
  lemma MovedStageKinds(first: nat, stages: seq<nat>, tess: seq<StageKind>,
                        attached: seq<nat>, kinds: seq<StageKind>, order: seq<StageKind>)
    requires |stages| == 2 + |tess|
    requires forall i :: 0 <= i < |stages| ==> stages[i] == first + i
    requires attached == [stages[0]] + stages[2..] + [stages[1]]
    requires kinds == [Vertex, Fragment] + tess && order == [Vertex] + tess + [Fragment]
    ensures AttachedInOrder(first, attached, kinds, order)
  {
    forall p | 0 <= p < |attached|
      ensures first <= attached[p] < first + |kinds| && kinds[attached[p] - first] == order[p]
    {
      if p == 0 {
        assert attached[p] == stages[0];
      } else if p == |attached| - 1 {
        assert attached[p] == stages[1];
      } else {
        assert attached[p] == stages[p + 1];
        assert order[p] == tess[p - 1] == kinds[p + 1];
      }
    }
  }

  /** Attaching reads the link block only. */
  lemma ReadAttachedShader(first: nat, hasVertexSource: bool, hasFragmentSource: bool, program: nat, tc: nat, te: nat)
    ensures StageRead(first, Vertex, hasVertexSource, AttachedShader)
            + StageRead(first + 1, Fragment, hasFragmentSource, AttachedShader)
            + OptionalStageRead(tc, TessControl, AttachedShader) + OptionalStageRead(te, TessEval, AttachedShader)
            + LinkRead(program, first, first + 1, tc, te, AttachedShader) + DeleteRead(first, first + 1, tc, te, AttachedShader)
            == [first] + (Present(tc) + Present(te)) + [first + 1]
  {
    StagesAttachNothing(first, Vertex, hasVertexSource);
    StagesAttachNothing(first + 1, Fragment, hasFragmentSource);
    OptionalStagesAttachNothing(tc, TessControl);
    OptionalStagesAttachNothing(te, TessEval);
    DeletesAttachNothing(first, first + 1, tc, te);
    LinkAttaches(program, first, first + 1, tc, te);
    EmptyAppend(LinkRead(program, first, first + 1, tc, te, AttachedShader));
  }

  lemma StageNamesSplit(first: nat, hasTessControl: bool, hasTessEval: bool)
    ensures StageNames(first, hasTessControl, hasTessEval) ==
            [first, first + 1] + (Present(TessControlName(first, hasTessControl))
                                  + Present(TessEvalName(first, hasTessControl, hasTessEval)))
  {
  }

  /** Moving the second element to the back keeps the elements. */
  lemma MoveSecondToBack<T>(a: T, b: T, rest: seq<T>)
    ensures var s := [a, b] + rest;
            [s[0]] + s[2..] + [s[1]] == [a] + rest + [b] && multiset([a] + rest + [b]) == multiset(s)
  {
    var s := [a, b] + rest;
    assert s[2..] == rest;
    assert s == [a] + [b] + rest;
  }

  lemma StagesAttachNothing(shader: nat, kind: StageKind, hasSource: bool)
    ensures StageRead(shader, kind, hasSource, AttachedShader) == []
  {
  }

  lemma OptionalStagesAttachNothing(shader: nat, kind: StageKind)
    ensures OptionalStageRead(shader, kind, AttachedShader) == []
  {
  }

  lemma DeletesAttachNothing(vertexShader: nat, fragmentShader: nat, tessControlShader: nat, tessEvalShader: nat)
    ensures DeleteRead(vertexShader, fragmentShader, tessControlShader, tessEvalShader, AttachedShader) == []
  {
  }

  lemma LinkAttaches(program: nat, vertexShader: nat, fragmentShader: nat, tessControlShader: nat, tessEvalShader: nat)
    ensures LinkRead(program, vertexShader, fragmentShader, tessControlShader, tessEvalShader, AttachedShader)
            == [vertexShader] + (Present(tessControlShader) + Present(tessEvalShader)) + [fragmentShader]
  {
    EmptyAppend([vertexShader] + Present(tessControlShader) + Present(tessEvalShader) + [fragmentShader]);
    assert [vertexShader] + Present(tessControlShader) + Present(tessEvalShader) ==
           [vertexShader] + (Present(tessControlShader) + Present(tessEvalShader));
  }

  /** Every attachment is to that program. */
  lemma CompileCallsAttachTarget(first: nat, hasVertexSource: bool, hasFragmentSource: bool,
                                 hasTessControl: bool, hasTessEval: bool)
    ensures var calls := CompileCalls(first, hasVertexSource, hasFragmentSource, hasTessControl, hasTessEval);
            var program := ProgramName(first, hasTessControl, hasTessEval);
            && |Collect(calls, AttachTarget)| == |CreationOrder(hasTessControl, hasTessEval)|
            && forall i :: 0 <= i < |Collect(calls, AttachTarget)| ==> Collect(calls, AttachTarget)[i] == program
  {
    var tc, te := TessControlName(first, hasTessControl), TessEvalName(first, hasTessControl, hasTessEval);
    var program := ProgramName(first, hasTessControl, hasTessEval);
    CollectCompileCalls(first, hasVertexSource, hasFragmentSource, hasTessControl, hasTessEval, AttachTarget);
    assert StageRead(first, Vertex, hasVertexSource, AttachTarget) == [];
    assert StageRead(first + 1, Fragment, hasFragmentSource, AttachTarget) == [];
    assert OptionalStageRead(tc, TessControl, AttachTarget) == [];
    assert OptionalStageRead(te, TessEval, AttachTarget) == [];
    assert DeleteRead(first, first + 1, tc, te, AttachTarget) == [];
  }

  // ---------------------------------------------------------------------------------------------
  // compileShaders

  /** A stage file name that yields a buffer: given, existing and not empty. */
  predicate StageLoads(fs: FileSystem, filename: Option<string>) {
    filename.Some? && Loads(fs, filename.value)
  }

  /** A stage file the stream can read: any present file whose text fits its reported length. */
  predicate Readable(fs: FileSystem, filename: Option<string>) {
    filename.Some? && filename.value in fs ==> TextFits(fs[filename.value])
  }

  /** One stage: create the shader object, hand it the source, compile it, report the outcome. */
  method BuildStage(gl: GLContext, kind: StageKind, source: array?<char>) returns (shader: nat)
    requires gl.Valid()
    modifies gl`nextName, gl`calls, gl`log
    ensures gl.Valid()
    ensures shader == old(gl.nextName) && gl.nextName == shader + 1
    ensures gl.calls == old(gl.calls) + StageCalls(shader, kind, source != null)
    ensures gl.log == old(gl.log) + CompileReport(gl.compileStatus(shader), StageName(kind))
  {
    shader := gl.CreateShader(kind);
    gl.ShaderSource(shader, source);
    gl.CompileShader(shader);
    CheckShaderCompilation(gl, shader, StageName(kind));
  }

  /** An optional stage: built only when its source is there; its name is 0 otherwise. */
  method BuildOptionalStage(gl: GLContext, kind: StageKind, source: array?<char>) returns (shader: nat)
    requires gl.Valid()
    modifies gl`nextName, gl`calls, gl`log
    ensures gl.Valid()
    ensures source == null ==> shader == 0 && gl.nextName == old(gl.nextName) && gl.log == old(gl.log)
    ensures source != null ==>
              && shader == old(gl.nextName) && gl.nextName == shader + 1
              && gl.log == old(gl.log) + CompileReport(gl.compileStatus(shader), StageName(kind))
    ensures gl.calls == old(gl.calls) + OptionalStageCalls(shader, kind)
  {
    shader := 0;
    if source != null {
      shader := BuildStage(gl, kind, source);
    }
  }

  /** The stage-building part of compileShaders: vertex and fragment always, a tessellation stage
      only when its source is there. */
  method BuildStages(gl: GLContext, vertexSource: array?<char>, fragmentSource: array?<char>,
                     tessControlSource: array?<char>, tessEvalSource: array?<char>)
    returns (vertexShader: nat, fragmentShader: nat, tessControlShader: nat, tessEvalShader: nat)
    requires gl.Valid()
    modifies gl`nextName, gl`calls, gl`log
    ensures gl.Valid()
    ensures var first := old(gl.nextName);
            var hasTessControl, hasTessEval := tessControlSource != null, tessEvalSource != null;
            && vertexShader == first && fragmentShader == first + 1
            && tessControlShader == TessControlName(first, hasTessControl)
            && tessEvalShader == TessEvalName(first, hasTessControl, hasTessEval)
            && gl.nextName == ProgramName(first, hasTessControl, hasTessEval)
            && gl.calls == old(gl.calls) + (StageCalls(vertexShader, Vertex, vertexSource != null)
                                             + StageCalls(fragmentShader, Fragment, fragmentSource != null)
                                             + OptionalStageCalls(tessControlShader, TessControl)
                                             + OptionalStageCalls(tessEvalShader, TessEval))
            && gl.log == old(gl.log) + CompileLog(gl.compileStatus, first, CreationOrder(hasTessControl, hasTessEval))
  {
    ghost var first, calls0, log0 := gl.nextName, gl.calls, gl.log;
    vertexShader := BuildStage(gl, Vertex, vertexSource);
    ghost var calls1, log1 := gl.calls, gl.log;
    fragmentShader := BuildStage(gl, Fragment, fragmentSource);
    ghost var calls2, log2 := gl.calls, gl.log;
    tessControlShader := BuildOptionalStage(gl, TessControl, tessControlSource);
    ghost var calls3, log3 := gl.calls, gl.log;
    tessEvalShader := BuildOptionalStage(gl, TessEval, tessEvalSource);

    ghost var b1, b2 := StageCalls(vertexShader, Vertex, vertexSource != null),
                        StageCalls(fragmentShader, Fragment, fragmentSource != null);
    ghost var b3, b4 := OptionalStageCalls(tessControlShader, TessControl), OptionalStageCalls(tessEvalShader, TessEval);
    assert gl.calls == calls0 + (b1 + b2 + b3 + b4) by {
      AppendFour(calls0, b1, b2, b3, b4);
    }
    ghost var hasTessControl, hasTessEval := tessControlSource != null, tessEvalSource != null;
    assert gl.log == log0 + CompileLog(gl.compileStatus, first, CreationOrder(hasTessControl, hasTessEval)) by {
      StagesLog(gl.compileStatus, first, hasTessControl, hasTessEval, log0, log1, log2, log3, gl.log);
    }
  }

  /** The compile reports of the stages, appended one stage at a time, form the compile log. */
  lemma StagesLog(compileStatus: nat -> bool, first: nat, hasTessControl: bool, hasTessEval: bool,
                  log0: seq<Diagnostic>, log1: seq<Diagnostic>, log2: seq<Diagnostic>, log3: seq<Diagnostic>,
                  log4: seq<Diagnostic>)
    requires log1 == log0 + CompileReport(compileStatus(first), StageName(Vertex))
    requires log2 == log1 + CompileReport(compileStatus(first + 1), StageName(Fragment))
    requires !hasTessControl ==> log3 == log2
    requires hasTessControl ==> log3 == log2 + CompileReport(compileStatus(first + 2), StageName(TessControl))
    requires !hasTessEval ==> log4 == log3
    requires hasTessEval ==> log4 == log3 + CompileReport(compileStatus(ProgramName(first, hasTessControl, false)),
                                                           StageName(TessEval))
    ensures log4 == log0 + CompileLog(compileStatus, first, CreationOrder(hasTessControl, hasTessEval))
  {
    var core := [Vertex, Fragment];
    var withControl := core + Optional(hasTessControl, TessControl);
    assert CreationOrder(hasTessControl, false) == withControl + [];
    assert ProgramName(first, hasTessControl, false) == first + |withControl|;
    CoreStagesLog(compileStatus, first, log0, log1, log2);
    OptionalStageLog(compileStatus, first, core, hasTessControl, TessControl, log0, log2, log3);
    OptionalStageLog(compileStatus, first, withControl, hasTessEval, TessEval, log0, log3, log4);
    assert CreationOrder(hasTessControl, hasTessEval) == withControl + Optional(hasTessEval, TessEval);
  }

  lemma CoreStagesLog(compileStatus: nat -> bool, first: nat,
                      log0: seq<Diagnostic>, log1: seq<Diagnostic>, log2: seq<Diagnostic>)
    requires log1 == log0 + CompileReport(compileStatus(first), StageName(Vertex))
    requires log2 == log1 + CompileReport(compileStatus(first + 1), StageName(Fragment))
    ensures log2 == log0 + CompileLog(compileStatus, first, [Vertex, Fragment])
  {
    CompileLogAppend(compileStatus, first, [], Vertex);
    CompileLogAppend(compileStatus, first, [Vertex], Fragment);
    assert [Vertex] + [Fragment] == [Vertex, Fragment];
    AppendAssoc(log0, CompileReport(compileStatus(first), StageName(Vertex)),
                CompileReport(compileStatus(first + 1), StageName(Fragment)));
  }

  /** An optional stage adds its report to the log exactly when it is built. */
  lemma OptionalStageLog(compileStatus: nat -> bool, first: nat, kinds: seq<StageKind>, present: bool, kind: StageKind,
                         log0: seq<Diagnostic>, before: seq<Diagnostic>, after: seq<Diagnostic>)
    requires before == log0 + CompileLog(compileStatus, first, kinds)
    requires !present ==> after == before
    requires present ==> after == before + CompileReport(compileStatus(first + |kinds|), StageName(kind))
    ensures after == log0 + CompileLog(compileStatus, first, kinds + Optional(present, kind))
  {
    if present {
      CompileLogAppend(compileStatus, first, kinds, kind);
      AppendAssoc(log0, CompileLog(compileStatus, first, kinds), CompileReport(compileStatus(first + |kinds|), StageName(kind)));
    } else {
      assert kinds + Optional(present, kind) == kinds;
    }
  }

  /** The linking part of compileShaders: a new program, the stages attached (vertex, the
      tessellation stages that were built, fragment), linked, the link outcome reported. */
  method LinkStages(gl: GLContext, vertexShader: nat, fragmentShader: nat,
                    tessControlShader: nat, tessEvalShader: nat) returns (program: nat)
    requires gl.Valid()
    requires vertexShader < gl.nextName && fragmentShader < gl.nextName
    requires tessControlShader < gl.nextName && tessEvalShader < gl.nextName
    modifies gl`nextName, gl`calls, gl`log
    ensures gl.Valid()
    ensures program == old(gl.nextName) && gl.nextName == program + 1
    ensures gl.calls == old(gl.calls) + LinkCalls(program, vertexShader, fragmentShader, tessControlShader, tessEvalShader)
    ensures gl.log == old(gl.log) + LinkReport(gl.linkStatus(program), program)
  {
    program := gl.CreateProgram();
    gl.AttachShader(program, vertexShader);
    ghost var linked := [CreateProgramCall(program), AttachShaderCall(program, vertexShader)];
    assert gl.calls == old(gl.calls) + linked;
    if tessControlShader != 0 {
      gl.AttachShader(program, tessControlShader);
    }
    linked := linked + AttachPresent(program, tessControlShader);
    assert gl.calls == old(gl.calls) + linked;
    if tessEvalShader != 0 {
      gl.AttachShader(program, tessEvalShader);
    }
    linked := linked + AttachPresent(program, tessEvalShader);
    assert gl.calls == old(gl.calls) + linked;
    gl.AttachShader(program, fragmentShader);
    gl.LinkProgram(program);
    assert gl.calls == old(gl.calls) + (linked + [AttachShaderCall(program, fragmentShader), LinkProgramCall(program)]);
    CheckProgramLink(gl, program);
  }

  /** The clean-up part of compileShaders: every stage object built is deleted. */
  method DeleteStages(gl: GLContext, vertexShader: nat, fragmentShader: nat,
                      tessControlShader: nat, tessEvalShader: nat)
    requires gl.Valid()
    requires vertexShader < gl.nextName && fragmentShader < gl.nextName
    requires tessControlShader < gl.nextName && tessEvalShader < gl.nextName
    modifies gl`calls
    ensures gl.Valid()
    ensures gl.calls == old(gl.calls) + DeleteCalls(vertexShader, fragmentShader, tessControlShader, tessEvalShader)
  {
    gl.DeleteShader(vertexShader);
    gl.DeleteShader(fragmentShader);
    ghost var deleted := [DeleteShaderCall(vertexShader), DeleteShaderCall(fragmentShader)];
    assert gl.calls == old(gl.calls) + deleted;
    if tessControlShader != 0 {
      gl.DeleteShader(tessControlShader);
    }
    deleted := deleted + DeletePresent(tessControlShader);
    assert gl.calls == old(gl.calls) + deleted;
    if tessEvalShader != 0 {
      gl.DeleteShader(tessEvalShader);
    }
    deleted := deleted + DeletePresent(tessEvalShader);
    assert gl.calls == old(gl.calls) + deleted;
  }

  /** A one-element pointer array holding the buffer loaded for an optional stage file, or null
      when no file name is given. */
  method LoadOptionalSource(heap: SourceHeap, fs: FileSystem, filename: Option<string>)
    returns (sourceRef: array<array?<char>>)
    requires Readable(fs, filename)
    modifies heap
    ensures fresh(sourceRef) && sourceRef.Length == 1
    ensures sourceRef[0] == null <==> !StageLoads(fs, filename)
    ensures sourceRef[0] == null ==> heap.live == old(heap.live)
    ensures sourceRef[0] != null ==> fresh(sourceRef[0]) && heap.live == old(heap.live) + {sourceRef[0]}
  {
    var loaded: array?<char> := null;
    if filename.Some? {
      loaded := LoadShader(heap, fs, filename.value);
    }
    sourceRef := new array?<char>[1] [loaded];
  }

  /** The GL part of compileShaders, given the four source pointers: build the stages that
      have one (vertex and fragment always), attach them to a new program and link it, delete the
      stage objects. */
  method BuildProgram(gl: GLContext, vertexSource: array?<char>, fragmentSource: array?<char>,
                      tessControlSource: array?<char>, tessEvalSource: array?<char>) returns (program: nat)
    requires gl.Valid()
    modifies gl`nextName, gl`calls, gl`log
    ensures gl.Valid()
    ensures var first := old(gl.nextName);
            var hasTessControl, hasTessEval := tessControlSource != null, tessEvalSource != null;
            && program == ProgramName(first, hasTessControl, hasTessEval) && gl.nextName == program + 1
            && gl.calls == old(gl.calls) + CompileCalls(first, vertexSource != null, fragmentSource != null,
                                                        hasTessControl, hasTessEval)
            && gl.log == old(gl.log) + CompileLog(gl.compileStatus, first, CreationOrder(hasTessControl, hasTessEval))
                                     + LinkReport(gl.linkStatus(program), program)
  {
    var vertexShader, fragmentShader, tessControlShader, tessEvalShader :=
      BuildStages(gl, vertexSource, fragmentSource, tessControlSource, tessEvalSource);
    ghost var built := gl.calls[|old(gl.calls)|..];
    program := LinkStages(gl, vertexShader, fragmentShader, tessControlShader, tessEvalShader);
    DeleteStages(gl, vertexShader, fragmentShader, tessControlShader, tessEvalShader);
    AppendThree(old(gl.calls), built, LinkCalls(program, vertexShader, fragmentShader, tessControlShader, tessEvalShader),
                DeleteCalls(vertexShader, fragmentShader, tessControlShader, tessEvalShader));
  }

  /** compileShaders: load the stage sources, build and link the program from them, release the
      source buffers. The program's name is returned whether or not everything compiled and
      linked; failures only add diagnostics. */
  method CompileShaders(gl: GLContext, heap: SourceHeap, fs: FileSystem, vertexFilename: string,
                        fragmentFilename: string, tessControlFilename: Option<string>,
                        tessEvalFilename: Option<string>) returns (program: nat)
    requires gl.Valid()
    requires Readable(fs, Some(vertexFilename)) && Readable(fs, Some(fragmentFilename))
    requires Readable(fs, tessControlFilename) && Readable(fs, tessEvalFilename)
    modifies gl, heap
    ensures gl.Valid()
    ensures var first := old(gl.nextName);
            var hasTessControl, hasTessEval := StageLoads(fs, tessControlFilename), StageLoads(fs, tessEvalFilename);
            && program == ProgramName(first, hasTessControl, hasTessEval) && gl.nextName == program + 1
            && gl.calls == old(gl.calls) + CompileCalls(first, Loads(fs, vertexFilename), Loads(fs, fragmentFilename),
                                                        hasTessControl, hasTessEval)
            && gl.log == old(gl.log) + CompileLog(gl.compileStatus, first, CreationOrder(hasTessControl, hasTessEval))
                                     + LinkReport(gl.linkStatus(program), program)
    ensures heap.live == old(heap.live)
  {
    var vertexSource, fragmentSource, tessControlSource, tessEvalSource :=
      LoadSources(heap, fs, vertexFilename, fragmentFilename, tessControlFilename, tessEvalFilename);
    program := BuildProgram(gl, vertexSource[0], fragmentSource[0], tessControlSource[0], tessEvalSource[0]);
    UnloadSources(heap, vertexSource, fragmentSource, tessControlSource, tessEvalSource);
  }

  /** The buffers four source pointers refer to. */
  ghost function Buffers(vertexSource: array?<char>, fragmentSource: array?<char>,
                         tessControlSource: array?<char>, tessEvalSource: array?<char>): set<array<char>> {
    (if vertexSource == null then {} else {vertexSource})
    + (if fragmentSource == null then {} else {fragmentSource})
    + (if tessControlSource == null then {} else {tessControlSource})
    + (if tessEvalSource == null then {} else {tessEvalSource})
  }

  /** No two of the source pointers share a buffer. */
  predicate SeparateBuffers(vertexSource: array?<char>, fragmentSource: array?<char>,
                            tessControlSource: array?<char>, tessEvalSource: array?<char>) {
    && (vertexSource != null ==> vertexSource != fragmentSource && vertexSource != tessControlSource
                                 && vertexSource != tessEvalSource)
    && (fragmentSource != null ==> fragmentSource != tessControlSource && fragmentSource != tessEvalSource)
    && (tessControlSource != null ==> tessControlSource != tessEvalSource)
  }

  /** The loading part of compileShaders: four fresh one-element pointer arrays, a source pointer
      each, null exactly when the stage file does not load; the buffers loaded are new. */
  method LoadSources(heap: SourceHeap, fs: FileSystem, vertexFilename: string, fragmentFilename: string,
                     tessControlFilename: Option<string>, tessEvalFilename: Option<string>)
    returns (vertexSource: array<array?<char>>, fragmentSource: array<array?<char>>,
             tessControlSource: array<array?<char>>, tessEvalSource: array<array?<char>>)
    requires Readable(fs, Some(vertexFilename)) && Readable(fs, Some(fragmentFilename))
    requires Readable(fs, tessControlFilename) && Readable(fs, tessEvalFilename)
    modifies heap
    ensures fresh(vertexSource) && fresh(fragmentSource) && fresh(tessControlSource) && fresh(tessEvalSource)
    ensures vertexSource != fragmentSource && vertexSource != tessControlSource && vertexSource != tessEvalSource
    ensures fragmentSource != tessControlSource && fragmentSource != tessEvalSource && tessControlSource != tessEvalSource
    ensures vertexSource.Length == 1 && fragmentSource.Length == 1
    ensures tessControlSource.Length == 1 && tessEvalSource.Length == 1
    ensures vertexSource[0] != null <==> Loads(fs, vertexFilename)
    ensures fragmentSource[0] != null <==> Loads(fs, fragmentFilename)
    ensures tessControlSource[0] != null <==> StageLoads(fs, tessControlFilename)
    ensures tessEvalSource[0] != null <==> StageLoads(fs, tessEvalFilename)
    ensures SeparateBuffers(vertexSource[0], fragmentSource[0], tessControlSource[0], tessEvalSource[0])
    ensures var loaded := Buffers(vertexSource[0], fragmentSource[0], tessControlSource[0], tessEvalSource[0]);
            heap.live == old(heap.live) + loaded && old(heap.live) !! loaded
  {
    vertexSource := LoadOptionalSource(heap, fs, Some(vertexFilename));
    fragmentSource := LoadOptionalSource(heap, fs, Some(fragmentFilename));
    tessControlSource := LoadOptionalSource(heap, fs, tessControlFilename);
    tessEvalSource := LoadOptionalSource(heap, fs, tessEvalFilename);
  }

  /** The releasing part of compileShaders: vertex and fragment unconditionally (a null pointer
      is left alone), a tessellation buffer only when there is one. */
  method UnloadSources(heap: SourceHeap, vertexSource: array<array?<char>>, fragmentSource: array<array?<char>>,
                       tessControlSource: array<array?<char>>, tessEvalSource: array<array?<char>>)
    requires vertexSource != fragmentSource && vertexSource != tessControlSource && vertexSource != tessEvalSource
    requires fragmentSource != tessControlSource && fragmentSource != tessEvalSource && tessControlSource != tessEvalSource
    requires vertexSource.Length == 1 && fragmentSource.Length == 1
    requires tessControlSource.Length == 1 && tessEvalSource.Length == 1
    requires SeparateBuffers(vertexSource[0], fragmentSource[0], tessControlSource[0], tessEvalSource[0])
    requires Buffers(vertexSource[0], fragmentSource[0], tessControlSource[0], tessEvalSource[0]) <= heap.live
    modifies heap, vertexSource, fragmentSource, tessControlSource, tessEvalSource
    ensures heap.live ==
            old(heap.live) - old(Buffers(vertexSource[0], fragmentSource[0], tessControlSource[0], tessEvalSource[0]))
  {
    UnloadShader(heap, vertexSource);
    UnloadShader(heap, fragmentSource);
    if tessControlSource[0] != null {
      UnloadShader(heap, tessControlSource);
    }
    if tessEvalSource[0] != null {
      UnloadShader(heap, tessEvalSource);
    }
  }
}
