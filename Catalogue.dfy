/** The per-machine file catalogue (`Files.txt`) of `Computer`: each line
    `description=filename,instructions` becomes a `FileDescriptor`, and
    `getFileInfo` looks a file name up ignoring case. Reading the file itself
    is I/O; the model starts from its lines. */
module Catalogue {
  import opened Outcomes
  import opened JavaString

  /** `jemu.core.device.FileDescriptor`. */
  datatype FileDescriptor = FileDescriptor(description: string, filename: string, instructions: string)

  /** The catalogue-line parse inside `getFiles`: lines without `=` give
      nothing; otherwise the trimmed text before the first `=`, the trimmed
      text up to the next `,` (or the end), and the trimmed rest with every
      `|` turned into a newline (empty when there is no comma). */
  function ParseLine(line: string): (r: Option<FileDescriptor>)
    ensures r.None? <==> '=' !in line
    ensures r.Some? ==> IsTrimmed(r.value.description) && IsTrimmed(r.value.filename)
    ensures r.Some? ==> '|' !in r.value.instructions
  {
    var iDesc := IndexOf(line, '=', 0);
    if iDesc == -1 then None
    else
      var desc := Trim(line[..iDesc]);
      var comma := IndexOf(line, ',', iDesc + 1);
      var iName := if comma == -1 then |line| else comma;
      var name := Trim(line[iDesc + 1..iName]);
      var instructions := if iName < |line| then Replace(Trim(line[iName + 1..]), '|', '\n') else "";
      Some(FileDescriptor(desc, name, instructions))
  }

  /** The descriptors `getFiles` collects from `lines`, in order. */
  function CatalogueOf(lines: seq<string>): (r: seq<FileDescriptor>)
    ensures |r| <= |lines|
  {
    if lines == [] then []
    else
      var rest := CatalogueOf(lines[..|lines| - 1]);
      match ParseLine(lines[|lines| - 1])
      case None => rest
      case Some(d) => rest + [d]
  }

  /** The loop of `getFiles` over the lines of the catalogue. */
  method ParseCatalogue(lines: seq<string>) returns (files: seq<FileDescriptor>)
    ensures files == CatalogueOf(lines)
  {
    files := [];
    var i := 0;
    while i < |lines|
      invariant 0 <= i <= |lines|
      invariant files == CatalogueOf(lines[..i])
    {
      assert lines[..i + 1][..i] == lines[..i];
      var d := ParseLine(lines[i]);
      if d.Some? {
        files := files + [d.value];
      }
      i := i + 1;
    }
    assert lines[..i] == lines;
  }

  /** `getFileInfo` over the collected descriptors: the instructions of the
      first entry whose file name equals `fileName` ignoring case, or none. */
  method FindFileInfo(files: seq<FileDescriptor>, fileName: string) returns (r: Option<string>)
    ensures r.None? <==> forall j :: 0 <= j < |files| ==> !EqualsIgnoreCase(files[j].filename, fileName)
    ensures r.Some? ==> exists j :: 0 <= j < |files| && EqualsIgnoreCase(files[j].filename, fileName) &&
                          r.value == files[j].instructions &&
                          forall k :: 0 <= k < j ==> !EqualsIgnoreCase(files[k].filename, fileName)
  {
    r := None;
    var i := 0;
    while i < |files|
      invariant 0 <= i <= |files|
      invariant forall k :: 0 <= k < i ==> !EqualsIgnoreCase(files[k].filename, fileName)
    {
      if EqualsIgnoreCase(files[i].filename, fileName) {
        r := Some(files[i].instructions);
        return;
      }
      i := i + 1;
    }
  }

  /** A descriptor that a catalogue line can express. */
  predicate Expressible(d: FileDescriptor)
  {
    && '=' !in d.description && IsTrimmed(d.description)
    && ',' !in d.filename && IsTrimmed(d.filename)
    && '|' !in d.instructions && IsTrimmed(Replace(d.instructions, '\n', '|'))
  }

  /** The catalogue line that describes `d`. */
  function FormatLine(d: FileDescriptor): string
  {
    d.description + "=" + d.filename + "," + Replace(d.instructions, '\n', '|')
  }

  /** A line with `=` and no comma after it: the trimmed description and
      file name, and empty instructions. */
  lemma ParseLineNoComma(a: string, b: string)
    requires '=' !in a && ',' !in b
    ensures ParseLine(a + "=" + b) == Some(FileDescriptor(Trim(a), Trim(b), ""))
  {
    var line := a + "=" + b;
    var eq := |a|;
    assert line[eq] == '=';
    assert forall i :: 0 <= i < eq ==> line[i] == a[i];
    assert IndexOf(line, '=', 0) == eq;
    assert forall i :: eq + 1 <= i < |line| ==> line[i] == b[i - eq - 1];
    assert IndexOf(line, ',', eq + 1) == -1;
    assert line[..eq] == a;
    assert line[eq + 1..|line|] == b;
    assert ParseLine(line) == Some(FileDescriptor(Trim(line[..eq]), Trim(line[eq + 1..|line|]), ""));
  }

  /** A line with `=` and a comma after it: the trimmed description and file
      name, and the trimmed text after the comma with `|` turned into
      newlines. */
  lemma ParseLineWithComma(a: string, b: string, c: string)
    requires '=' !in a && ',' !in b
    ensures ParseLine(a + "=" + b + "," + c) == Some(FileDescriptor(Trim(a), Trim(b), Replace(Trim(c), '|', '\n')))
  {
    var line := a + "=" + b + "," + c;
    var eq := |a|;
    var cm := eq + 1 + |b|;
    assert line[eq] == '=';
    assert forall i :: 0 <= i < eq ==> line[i] == a[i];
    assert IndexOf(line, '=', 0) == eq;
    assert line[cm] == ',';
    assert forall i :: eq + 1 <= i < cm ==> line[i] == b[i - eq - 1];
    assert IndexOf(line, ',', eq + 1) == cm;
    assert line[..eq] == a;
    assert line[eq + 1..cm] == b;
    assert line[cm + 1..] == c;
  }

  /** Parsing the line written for a descriptor gives the descriptor back. */
  lemma ParseFormatLine(d: FileDescriptor)
    requires Expressible(d)
    ensures ParseLine(FormatLine(d)) == Some(d)
  {
    ParseLineWithComma(d.description, d.filename, Replace(d.instructions, '\n', '|'));
    ReplaceBack(d.instructions, '\n', '|');
  }

  /** A catalogue written one line per descriptor. */
  function FormatCatalogue(ds: seq<FileDescriptor>): (lines: seq<string>)
    ensures |lines| == |ds|
  {
    if ds == [] then [] else FormatCatalogue(ds[..|ds| - 1]) + [FormatLine(ds[|ds| - 1])]
  }

  /** Every descriptor of a catalogue written line by line is read back, in
      order. */
  lemma {:induction false} ParseFormatCatalogue(ds: seq<FileDescriptor>)
    requires forall i :: 0 <= i < |ds| ==> Expressible(ds[i])
    ensures CatalogueOf(FormatCatalogue(ds)) == ds
  {
    if ds != [] {
      var lines := FormatCatalogue(ds);
      var init, last := ds[..|ds| - 1], ds[|ds| - 1];
      assert forall i :: 0 <= i < |init| ==> init[i] == ds[i];
      ParseFormatCatalogue(init);
      assert lines[..|lines| - 1] == FormatCatalogue(init);
      assert lines[|lines| - 1] == FormatLine(last);
      ParseFormatLine(last);
      assert CatalogueOf(lines) == CatalogueOf(FormatCatalogue(init)) + [last];
      SnocSplit(ds);
    }
  }

  lemma SnocSplit<T>(s: seq<T>)
    requires s != []
    ensures s == s[..|s| - 1] + [s[|s| - 1]]
  {
  }
}
