/** The image listing: one JSON record per line of `docker images` output,
    decoded into images and turned into table rows of repository, tag and id. */
module Images {
  import opened Wrappers
  import Lines

  /** One image as `docker images --format "{{json .}}"` reports it; every
      field is a string, empty when the record leaves it out. */
  datatype DockerImage = DockerImage(
    containers: string,
    createdAt: string,
    createdSince: string,
    digest: string,
    id: string,
    repository: string,
    sharedSize: string,
    size: string,
    tag: string,
    uniqueSize: string,
    virtualSize: string)

  /** Decoding one line into an image; None when the line is not a record. */
  type Decoder = string -> Option<DockerImage>

  /** One table row: a display string per column. */
  type Row = seq<string>

  /** A table column: its header title and its width in characters. */
  datatype Column = Column(title: string, width: int)

  /** The field of `image` that a JSON key names, None for any other title. */
  function FieldByTitle(image: DockerImage, title: string): Option<string>
  {
    if title == "Containers" then Some(image.containers)
    else if title == "CreatedAt" then Some(image.createdAt)
    else if title == "CreatedSince" then Some(image.createdSince)
    else if title == "Digest" then Some(image.digest)
    else if title == "ID" then Some(image.id)
    else if title == "Repository" then Some(image.repository)
    else if title == "SharedSize" then Some(image.sharedSize)
    else if title == "Size" then Some(image.size)
    else if title == "Tag" then Some(image.tag)
    else if title == "UniqueSize" then Some(image.uniqueSize)
    else if title == "VirtualSize" then Some(image.virtualSize)
    else None
  }

  /** The image a single line contributes: none for an empty line or a line
      that does not decode, otherwise the decoded image. */
  function Decoded(line: string, decode: Decoder): seq<DockerImage>
  {
    if line == "" then []
    else match decode(line)
      case None => []
      case Some(image) => [image]
  }

  /** A line is accepted with `image` when it is not empty and decodes to it. */
  predicate Accepts(line: string, decode: Decoder, image: DockerImage)
  {
    line != "" && decode(line) == Some(image)
  }

  /** The images decoded from `lines`, skipping empty and undecodable lines. */
  function ParseImages(lines: seq<string>, decode: Decoder): (images: seq<DockerImage>)
    ensures |images| <= |lines|
    decreases |lines|
  {
    if lines == [] then []
    else ParseImages(lines[..|lines| - 1], decode) + Decoded(lines[|lines| - 1], decode)
  }

  /** The row shown for one image. */
  function RowOf(image: DockerImage): Row
  {
    [image.repository, image.tag, image.id]
  }

  /** The columns of the image table, titled in the order the row cells are
      filled; the titles are the JSON keys of the fields shown. */
  function ImageColumns(): (columns: seq<Column>)
    ensures |columns| == 3
    ensures forall j :: 0 <= j < |columns| ==> columns[j].width == 30
    ensures forall image: DockerImage, j :: 0 <= j < |columns| ==>
      FieldByTitle(image, columns[j].title) == Some(RowOf(image)[j])
  {
    [Column("Repository", 30), Column("Tag", 30), Column("ID", 30)]
  }

  /** The columns as main.go declares them: three columns of width 30, each
      titled with the name of an image field. */
  function MainGoColumns(): (columns: seq<Column>)
    ensures |columns| == 3
    ensures forall j :: 0 <= j < |columns| ==> columns[j].width == 30
    ensures forall image: DockerImage, j :: 0 <= j < |columns| ==> FieldByTitle(image, columns[j].title).Some?
  {
    [Column("ID", 30), Column("Repository", 30), Column("Tag", 30)]
  }

  /** The columns as commands/docker.go declares them: three columns of width
      30, the last two titled with the fields their cells hold. */
  function CommandsColumns(): (columns: seq<Column>)
    ensures |columns| == 3
    ensures forall j :: 0 <= j < |columns| ==> columns[j].width == 30
    ensures forall image: DockerImage, j :: 1 <= j < |columns| ==>
      FieldByTitle(image, columns[j].title) == Some(RowOf(image)[j])
  {
    [Column("Repositoy", 30), Column("Tag", 30), Column("ID", 30)]
  }

  /** One row per image, in order; every row has a cell per column, and each
      cell holds the field its column title names. */
  function ImageRows(images: seq<DockerImage>): (rows: seq<Row>)
    ensures |rows| == |images|
    ensures forall k :: 0 <= k < |rows| ==> |rows[k]| == |ImageColumns()|
    ensures forall k, j :: 0 <= k < |rows| && 0 <= j < |ImageColumns()| ==>
      FieldByTitle(images[k], ImageColumns()[j].title) == Some(rows[k][j])
  {
    seq(|images|, k requires 0 <= k < |images| => RowOf(images[k]))
  }

  /** The row-building part of the image listing: split the raw output on
      newlines, decode every non-empty line, skip the ones that fail, then
      build one row per image. */
  method BuildImageRows(output: string, decode: Decoder) returns (rows: seq<Row>)
    ensures rows == ImageRows(ParseImages(Lines.SplitLines(output), decode))
  {
    var lines := Lines.SplitLines(output);
    var images: seq<DockerImage> := [];
    for i := 0 to |lines|
      invariant images == ParseImages(lines[..i], decode)
    {
      var line := lines[i];
      ParseImagesStep(lines, i, decode);
      if line == "" {
        continue;
      }
      var decoded := decode(line);
      if decoded.None? {
        continue;
      }
      images := images + [decoded.value];
    }
    assert lines[..|lines|] == lines;
    rows := [];
    for k := 0 to |images|
      invariant rows == ImageRows(images[..k])
    {
      ImageRowsStep(images, k);
      rows := rows + [RowOf(images[k])];
    }
    assert images[..|images|] == images;
  }

  /** Taking one more line adds that line's image, if any, at the end. */
  lemma ParseImagesStep(lines: seq<string>, i: int, decode: Decoder)
    requires 0 <= i < |lines|
    ensures ParseImages(lines[..i + 1], decode) == ParseImages(lines[..i], decode) + Decoded(lines[i], decode)
  {
    assert lines[..i + 1][..i] == lines[..i];
  }

  /** Taking one more image adds its row at the end. */
  lemma ImageRowsStep(images: seq<DockerImage>, k: int)
    requires 0 <= k < |images|
    ensures ImageRows(images[..k + 1]) == ImageRows(images[..k]) + [RowOf(images[k])]
  {
    assert images[..k + 1] == images[..k] + [images[k]];
  }

  /** Decoding distributes over concatenation of the input: the images of
      earlier lines come before the images of later lines. */
  lemma {:induction false} ParseImagesAppend(a: seq<string>, b: seq<string>, decode: Decoder)
    ensures ParseImages(a + b, decode) == ParseImages(a, decode) + ParseImages(b, decode)
    decreases |b|
  {
    if b == [] {
      assert a + b == a;
    } else {
      var init := b[..|b| - 1];
      assert (a + b)[..|a + b| - 1] == a + init;
      assert (a + b)[|a + b| - 1] == b[|b| - 1];
      ParseImagesAppend(a, init, decode);
    }
  }

  /** An image is in the result exactly when some non-empty line decodes to it. */
  lemma {:induction false} ParseImagesMembership(lines: seq<string>, decode: Decoder, image: DockerImage)
    ensures image in ParseImages(lines, decode) <==>
      exists i :: 0 <= i < |lines| && Accepts(lines[i], decode, image)
    decreases |lines|
  {
    if lines != [] {
      var init, last := lines[..|lines| - 1], lines[|lines| - 1];
      ParseImagesMembership(init, decode, image);
      if image in ParseImages(init, decode) {
        var i :| 0 <= i < |init| && Accepts(init[i], decode, image);
        assert lines[i] == init[i];
      }
      if exists i :: 0 <= i < |lines| && Accepts(lines[i], decode, image) {
        var i :| 0 <= i < |lines| && Accepts(lines[i], decode, image);
        if i < |init| {
          assert init[i] == lines[i];
        } else {
          assert Decoded(last, decode) == [image];
        }
      }
    }
  }

  /** The result is empty exactly when every line is empty or fails to decode. */
  lemma {:induction false} NothingDecodableNoImages(lines: seq<string>, decode: Decoder)
    ensures ParseImages(lines, decode) == [] <==>
      forall i :: 0 <= i < |lines| ==> lines[i] == "" || decode(lines[i]).None?
  {
    var images := ParseImages(lines, decode);
    if images != [] {
      ParseImagesMembership(lines, decode, images[0]);
    }
    if exists i :: 0 <= i < |lines| && lines[i] != "" && decode(lines[i]).Some? {
      var i :| 0 <= i < |lines| && lines[i] != "" && decode(lines[i]).Some?;
      ParseImagesMembership(lines, decode, decode(lines[i]).value);
    }
  }

  /** The positions of the lines that are not empty and decode. */
  function DecodableIndices(lines: seq<string>, decode: Decoder): set<int>
  {
    set i | 0 <= i < |lines| && lines[i] != "" && decode(lines[i]).Some?
  }

  /** There is exactly one image per non-empty decodable line. */
  lemma {:induction false} ParseImagesCount(lines: seq<string>, decode: Decoder)
    ensures |ParseImages(lines, decode)| == |DecodableIndices(lines, decode)|
    decreases |lines|
  {
    if lines == [] {
      assert DecodableIndices(lines, decode) == {};
    } else {
      var n := |lines| - 1;
      var init, last := lines[..n], lines[n];
      ParseImagesCount(init, decode);
      var before := DecodableIndices(init, decode);
      assert n !in before;
      if last != "" && decode(last).Some? {
        assert DecodableIndices(lines, decode) == before + {n};
        assert |before + {n}| == |before| + 1;
      } else {
        assert DecodableIndices(lines, decode) == before;
      }
    }
  }

  /** Two records, one decodable and one not, each ending in a newline: the
      table gets exactly the decodable one's row. */
  lemma MixedOutputScenario(good: string, bad: string, decode: Decoder)
    requires good != "" && bad != "" && '\n' !in good && '\n' !in bad
    requires decode(good).Some? && decode(good).value.repository == "nginx"
    requires decode(good).value.tag == "latest" && decode(good).value.id == "abc123"
    requires decode(bad) == None
    ensures ImageRows(ParseImages(Lines.SplitLines(good + "\n" + bad + "\n"), decode)) ==
      [["nginx", "latest", "abc123"]]
  {
    var lines := [good, bad];
    assert Lines.Terminated(lines[..1]) == good + "\n";
    assert Lines.Terminated(lines) + "" == good + "\n" + bad + "\n";
    Lines.SplitTerminated(lines, "");
    var all := [good, bad, ""];
    assert all[..2] == lines && lines[..1] == [good] && [good][..0] == [];
    assert ParseImages([good], decode) == [decode(good).value];
    assert ParseImages(lines, decode) == [decode(good).value];
    assert ParseImages(all, decode) == [decode(good).value];
  }

  /** Every row has exactly one cell per column, whichever of the three
      column sets the table is given. */
  lemma RowArityMatchesColumns(images: seq<DockerImage>, k: int)
    requires 0 <= k < |images|
    ensures |ImageRows(images)[k]| == |MainGoColumns()| == |CommandsColumns()| == |ImageColumns()|
  {
  }

  /** main.go titles its first column "ID" but fills it with the repository. */
  lemma MainGoColumnsMislabelCells()
    ensures var image := DockerImage("", "", "", "", "abc123", "nginx", "", "", "latest", "", "");
      FieldByTitle(image, MainGoColumns()[0].title) == Some("abc123") && RowOf(image)[0] == "nginx"
  {
  }

  /** commands/docker.go titles its first column "Repositoy", which names no field. */
  lemma CommandsColumnsTitleNoField(image: DockerImage)
    ensures FieldByTitle(image, CommandsColumns()[0].title) == None
    ensures RowOf(image)[0] == image.repository
  {
  }
}
