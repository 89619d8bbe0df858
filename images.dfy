/**
 * Image URLs of the IDN client (`image`, src/Api.php:682-685): the image base URL followed by
 * the cleaned string "/client/size transformation/path/fileName". Building a URL makes no
 * request and changes no state.
 */
module Images {
  import opened Paths

  /** The transformation codes of src/Api.php:11-41. `PAD` and `EXACT_BACKGROUND` are the
      integers 8 and 16 in the source; concatenated to the size they read as "8" and "16". */
  const Fit := ""
  const Fill := "f"
  const Exact := "e"
  const Crop := "c"
  const Pad := "8"
  const ExactBackground := "16"
  const Face := "a"

  /** The default size of `image`. */
  const FullSize := "full"

  /** The string that `image` hands to `cleanPathString`. */
  function RawImagePath(client: string, size: string, transformation: string, path: string, fileName: string): string {
    "/" + client + "/" + size + transformation + "/" + path + "/" + fileName
  }

  /** The segments of the image URL, in order: those of the client, of size and
      transformation glued together, of the directory and of the file name. */
  function ImageSegments(client: string, size: string, transformation: string, path: string, fileName: string): seq<string> {
    Segments(client) + (Segments(size + transformation) + (Segments(path) + Segments(fileName)))
  }

  /** The raw image path regrouped as nested `x + "/" + y`. */
  lemma RawImagePathNested(client: string, size: string, transformation: string, path: string, fileName: string)
    ensures RawImagePath(client, size, transformation, path, fileName)
      == [] + "/" + (client + "/" + ((size + transformation) + "/" + (path + "/" + fileName)))
  {
  }

  /** The segments of "/a/b/c/d" are those of a, b, c and d in order. */
  lemma SegmentsOfFourParts(a: string, b: string, c: string, d: string)
    ensures Segments([] + "/" + (a + "/" + (b + "/" + (c + "/" + d))))
      == Segments(a) + (Segments(b) + (Segments(c) + Segments(d)))
  {
    SegmentsConcat(c, d);
    SegmentsConcat(b, c + "/" + d);
    SegmentsConcat(a, b + "/" + (c + "/" + d));
    SegmentsConcat([], a + "/" + (b + "/" + (c + "/" + d)));
    SplitSlashFree([]);
  }

  /** The cleaned image path is the image segments joined by single slashes; it has no "//"
      and neither starts nor ends with '/'. */
  lemma CleanImagePath(client: string, size: string, transformation: string, path: string, fileName: string)
    ensures CleanPath(RawImagePath(client, size, transformation, path, fileName))
      == Join(ImageSegments(client, size, transformation, path, fileName))
    ensures var c := CleanPath(RawImagePath(client, size, transformation, path, fileName));
      NoDoubleSlash(c) && !StartsWithSlash(c) && !EndsWithSlash(c)
  {
    var raw := RawImagePath(client, size, transformation, path, fileName);
    RawImagePathNested(client, size, transformation, path, fileName);
    SegmentsOfFourParts(client, size + transformation, path, fileName);
    CleanPathIsJoinOfSegments(raw);
    CleanPathIsCanonical(raw);
  }

  /** With the FIT transformation (the empty code) the size segment is the size alone. */
  lemma FitKeepsSize(client: string, size: string, path: string, fileName: string)
    ensures ImageSegments(client, size, Fit, path, fileName)
      == Segments(client) + (Segments(size) + (Segments(path) + Segments(fileName)))
  {
    assert size + Fit == size;
  }

  lemma JoinOfFour(a: string, b: string, c: string, d: string)
    ensures Join([a, b, c, d]) == a + "/" + b + "/" + c + "/" + d
  {
    assert [a, b, c, d][1..] == [b, c, d];
    JoinOfThree(b, c, d);
  }

  lemma SegmentsOfDirectory(dir: string)
    requires dir != [] && '/' !in dir
    ensures Segments("/" + dir + "/") == [dir]
  {
    SplitSlashFree(dir);
    SplitSlashFree([]);
    SegmentsConcat(dir, []);
    SegmentsConcat([], dir + "/" + []);
    assert "/" + dir + "/" == [] + "/" + (dir + "/" + []);
  }

  lemma ImageSegmentsOfNames(client: string, size: string, dir: string, fileName: string)
    requires client != [] && size != [] && dir != [] && fileName != []
    requires '/' !in client && '/' !in size && '/' !in dir && '/' !in fileName
    ensures ImageSegments(client, size, Fit, "/" + dir + "/", fileName) == [client, size, dir, fileName]
  {
    FitKeepsSize(client, size, "/" + dir + "/", fileName);
    SplitSlashFree(client);
    SplitSlashFree(size);
    SplitSlashFree(fileName);
    SegmentsOfDirectory(dir);
  }

  /** For non-empty slash-free names: a directory written with surrounding slashes,
      "/dir/", loses them, and the FIT size segment is the size alone. No '/' is placed between the base URL and the client, because the leading
      '/' is trimmed. */
  lemma ImageExampleShape(client: string, size: string, dir: string, fileName: string)
    requires client != [] && size != [] && dir != [] && fileName != []
    requires '/' !in client && '/' !in size && '/' !in dir && '/' !in fileName
    ensures CleanPath(RawImagePath(client, size, Fit, "/" + dir + "/", fileName))
      == client + "/" + size + "/" + dir + "/" + fileName
  {
    CleanImagePath(client, size, Fit, "/" + dir + "/", fileName);
    ImageSegmentsOfNames(client, size, dir, fileName);
    JoinOfFour(client, size, dir, fileName);
  }

  /** Example: image("/dir/", "pic.png", "200x200", FIT) for client "c" gives "c/200x200/dir/pic.png"
      after the base URL. */
  lemma ImageExample()
    ensures CleanPath("/" + "c" + "/" + "200x200" + Fit + "/" + "/dir/" + "/" + "pic.png")
      == "c" + "/" + "200x200" + "/" + "dir" + "/" + "pic.png"
  {
    var client, size, dir, fileName: string := "c", "200x200", "dir", "pic.png";
    assert '/' !in client && '/' !in size && '/' !in dir && '/' !in fileName;
    assert "/dir/" == "/" + dir + "/";
    ImageExampleShape(client, size, dir, fileName);
  }
}
