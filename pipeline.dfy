/**
 * The file names and shell commands of the back end: createBitcode names the
 * bitcode file, convertBitcodeToAsm names the assembly file and the `llc`
 * command, createBinary builds the link command over every assembly file.
 */
module Pipeline {

  /** The bitcode file of a source file: its name followed by `.bc`. */
  function BitcodeName(source: string): (r: string)
    ensures |r| == |source| + 3 && r[..|source|] == source && r[|source|..] == ".bc"
  {
    source + ".bc"
  }

  /** The assembly file of a bitcode file: its name followed by `.s`. */
  function AsmName(bitcode: string): (r: string)
    ensures |r| == |bitcode| + 2 && r[..|bitcode|] == bitcode && r[|bitcode|..] == ".s"
  {
    bitcode + ".s"
  }

  /** `llc <bitcode> -o <bitcode>.s`. */
  function AsmCommand(bitcode: string): (r: string)
    ensures |r| == 4 + |bitcode| + 4 + |AsmName(bitcode)|
    ensures r[..4] == "llc " && r[4..4 + |bitcode|] == bitcode
    ensures r[4 + |bitcode|..] == " -o " + AsmName(bitcode)
  {
    "llc " + bitcode + " -o " + AsmName(bitcode)
  }

  /** The assembly files a run produces, one per source file and in the same order. */
  function AsmFileList(sources: seq<string>): (r: seq<string>)
    ensures |r| == |sources|
    ensures forall i :: 0 <= i < |sources| ==> r[i] == AsmName(BitcodeName(sources[i]))
  {
    seq(|sources|, i requires 0 <= i < |sources| => AsmName(BitcodeName(sources[i])))
  }

  /** The loop of createBinary: every file followed by one space. */
  function ArgList(files: seq<string>): (r: string)
    ensures |r| >= |files|
  {
    if files == [] then "" else ArgList(files[..|files| - 1]) + files[|files| - 1] + " "
  }

  /** `<compiler> <file> <file> ...  -o <output>` (the last file's space and the one before -o both stay). */
  function LinkCommand(compiler: string, files: seq<string>, output: string): (r: string)
    ensures |r| == |compiler| + 1 + |ArgList(files)| + 4 + |output|
    ensures r[..|compiler| + 1] == compiler + " "
    ensures r[|r| - |output| - 4..] == " -o " + output
  {
    compiler + " " + ArgList(files) + " -o " + output
  }

  /** Where file i starts in the argument list. */
  function ArgOffset(files: seq<string>, i: nat): nat
    requires i <= |files|
  {
    |ArgList(files[..i])|
  }

  /** A source file's assembly file name keeps the source name in front and ends in `.bc.s`. */
  lemma AsmOfBitcode(source: string)
    ensures AsmName(BitcodeName(source)) == source + ".bc.s"
    ensures AsmName(BitcodeName(source))[..|source|] == source
  {
  }

  /** Different source files give different bitcode and assembly files. */
  lemma FileNamesInjective(a: string, b: string)
    ensures BitcodeName(a) == BitcodeName(b) ==> a == b
    ensures AsmName(BitcodeName(a)) == AsmName(BitcodeName(b)) ==> a == b
  {
    assert BitcodeName(a)[..|a|] == a && BitcodeName(b)[..|b|] == b;
    assert AsmName(BitcodeName(a))[..|a|] == a && AsmName(BitcodeName(b))[..|b|] == b;
  }

  /** The `llc` command reads the bitcode file and writes its assembly file. */
  lemma AsmCommandShape(bitcode: string)
    ensures var c := AsmCommand(bitcode);
      && c[..4] == "llc "
      && c[4..4 + |bitcode|] == bitcode
      && c[4 + |bitcode|..] == " -o " + bitcode + ".s"
  {
  }

  /** Adding a file appends it and a space to the argument list. */
  lemma ArgListSnoc(files: seq<string>, f: string)
    ensures ArgList(files + [f]) == ArgList(files) + f + " "
  {
    assert (files + [f])[..|files|] == files;
  }

  /** The argument list of a prefix of the files is a prefix of the whole argument list. */
  lemma {:induction false} ArgListPrefix(files: seq<string>, k: nat)
    requires k <= |files|
    ensures ArgList(files[..k]) <= ArgList(files)
    decreases |files| - k
  {
    if k < |files| {
      ArgListPrefix(files, k + 1);
      assert files[..k + 1][..k] == files[..k];
      assert ArgList(files[..k + 1]) == ArgList(files[..k]) + files[k] + " ";
    } else {
      assert files[..k] == files;
    }
  }

  /** Every file appears in the argument list, in order, each followed by a space. */
  lemma ArgListHoldsEachFile(files: seq<string>, i: nat)
    requires i < |files|
    ensures var a := ArgList(files); var o := ArgOffset(files, i);
      && o + |files[i]| < |a|
      && a[o..o + |files[i]|] == files[i]
      && a[o + |files[i]|] == ' '
      && ArgOffset(files, i + 1) == o + |files[i]| + 1
  {
    ArgListPrefix(files, i + 1);
    ArgListUnfold(files, i + 1);
    PieceOfPrefix(ArgList(files), ArgList(files[..i + 1]), ArgList(files[..i]), files[i]);
  }

  /** The argument list of the first k files is that of the first k - 1, then file k - 1 and a space. */
  lemma ArgListUnfold(files: seq<string>, k: nat)
    requires 0 < k <= |files|
    ensures ArgList(files[..k]) == ArgList(files[..k - 1]) + files[k - 1] + " "
  {
    assert files[..k][..k - 1] == files[..k - 1];
  }

  /** A piece of a prefix of a string sits at the same place in the whole string. */
  lemma PieceOfPrefix(a: string, p: string, q: string, f: string)
    requires p == q + f + " " && p <= a
    ensures |q| + |f| < |a| && a[|q|..|q| + |f|] == f && a[|q| + |f|] == ' ' && |p| == |q| + |f| + 1
  {
    assert a[..|p|] == p;
    assert a[|q|..|q| + |f|] == p[|q|..|q| + |f|];
  }

  /** The link command starts with the compiler and ends with `-o` and the executable's name. */
  lemma LinkCommandShape(compiler: string, files: seq<string>, output: string)
    ensures var c := LinkCommand(compiler, files, output);
      var n := |compiler| + 1 + |ArgList(files)|;
      && c[..|compiler| + 1] == compiler + " "
      && c[|compiler| + 1..n] == ArgList(files)
      && c[n..] == " -o " + output
  {
  }
}
