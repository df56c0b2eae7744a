/** The image reference of the build command: taken apart, overridden by flags, and put
    together again. */
module ImageReference {
  import opened Strings

  const DEFAULT_TAG := "latest"

  datatype BuildConfig = BuildConfig(image: string, registry: string, repository: string, name: string, tag: string)

  datatype Image = Image(registry: string, repository: string, name: string, tag: string)

  function GetImageConfig(cfg: BuildConfig): Image {
    var tagged := Split(cfg.image, ':');
    var path := SplitN(tagged[0], '/', 3);
    Image(
      if cfg.registry != "" then cfg.registry else if |path| > 1 then path[0] else "",
      if cfg.repository != "" then cfg.repository else if |path| == 3 then path[1] else "",
      if cfg.name != "" then cfg.name else path[|path| - 1],
      if cfg.tag != "" then cfg.tag else if |tagged| > 1 && tagged[1] != "" then tagged[1] else DEFAULT_TAG)
  }

  function GetImage(img: Image): string {
    if img.registry == "" && img.repository == "" then img.name + ":" + img.tag
    else if img.registry == "" then img.repository + "/" + img.name + ":" + img.tag
    else if img.repository == "" then img.registry + "/" + img.name + ":" + img.tag
    else img.registry + "/" + img.repository + "/" + img.name + ":" + img.tag
  }

  /** No override flags. */
  function Plain(image: string): BuildConfig {
    BuildConfig(image, "", "", "", "")
  }

  // ---------- What is parsed

  /** A flag that is set is its own part of the result; the other parts are the image's. */
  lemma FlagsOverride(cfg: BuildConfig)
    ensures var plain, img := GetImageConfig(Plain(cfg.image)), GetImageConfig(cfg);
            && img.registry == (if cfg.registry != "" then cfg.registry else plain.registry)
            && img.repository == (if cfg.repository != "" then cfg.repository else plain.repository)
            && img.name == (if cfg.name != "" then cfg.name else plain.name)
            && img.tag == (if cfg.tag != "" then cfg.tag else plain.tag)
  {
  }

  /** The tag is what stands between the first colon and the next, and the rest comes from
      what stands before the first. */
  lemma TagParsed(path: string, tag: string, rest: string)
    requires ':' !in path && ':' !in tag && (rest == "" || rest[0] == ':')
    ensures GetImageConfig(Plain(path + ":" + tag + rest))
         == GetImageConfig(Plain(path)).(tag := if tag == "" then "latest" else tag)
    ensures GetImageConfig(Plain(path)).tag == "latest"
  {
    SplitFree(path, ':');
    SplitCons(path, tag + rest, ':');
    assert path + ":" + tag + rest == path + [':'] + (tag + rest);
    if rest == "" {
      SplitFree(tag, ':');
      assert tag + rest == tag;
    } else {
      assert rest == [':'] + rest[1..];
      assert tag + rest == tag + [':'] + rest[1..];
      SplitCons(tag, rest[1..], ':');
    }
  }

  lemma SplitThree(first: string, second: string, rest: string)
    requires '/' !in first && '/' !in second
    ensures SplitN(first + "/" + second + "/" + rest, '/', 3) == [first, second, rest]
  {
    var three := first + "/" + second + "/" + rest;
    assert three == first + ['/'] + (second + ['/'] + rest);
    SplitCons(first, second + ['/'] + rest, '/');
    SplitCons(second, rest, '/');
    JoinSplit(rest, '/');
    var all := Split(three, '/');
    assert all == [first, second] + Split(rest, '/');
    assert all[2..] == Split(rest, '/');
    if |all| == 3 {
      assert Split(rest, '/') == [all[2]];
    }
  }

  /** With two slashes or more, the first segment is the registry, the second the
      repository and all the rest the name. */
  lemma PathParsed(first: string, second: string, rest: string)
    requires ':' !in first && ':' !in second && ':' !in rest && '/' !in first && '/' !in second
    ensures GetImageConfig(Plain(first + "/" + second + "/" + rest)) == Image(first, second, rest, "latest")
  {
    SplitThree(first, second, rest);
    SplitFree(first + "/" + second + "/" + rest, ':');
  }

  /** With one it is a registry and a name, and without any a name. */
  lemma ShortPathParsed(first: string, second: string)
    requires ':' !in first && ':' !in second && '/' !in first && '/' !in second
    ensures GetImageConfig(Plain(first + "/" + second)) == Image(first, "", second, "latest")
    ensures GetImageConfig(Plain(second)) == Image("", "", second, "latest")
  {
    SplitCons(first, second, '/');
    SplitFree(second, '/');
    SplitFree(first + "/" + second, ':');
    SplitFree(second, ':');
  }

  /** The segments in front of the name are there and not empty. */
  predicate SegmentsFilled(image: string) {
    var path := SplitN(Split(image, ':')[0], '/', 3);
    (|path| > 1 ==> path[0] != "") && (|path| == 3 ==> path[1] != "")
  }

  predicate OneTag(image: string) {
    |Split(image, ':')| == 2 && Split(image, ':')[1] != ""
  }

  // ---------- Printing what was parsed

  lemma JoinTwo(a: string, b: string)
    ensures Join([a, b], '/') == a + "/" + b
  {
  }

  lemma JoinThree(a: string, b: string, c: string)
    ensures Join([a, b, c], '/') == a + "/" + b + "/" + c
  {
    assert [a, b, c][1..] == [b, c];
    JoinTwo(b, c);
  }

  lemma SplitNJoin(s: string)
    ensures Join(SplitN(s, '/', 3), '/') == s
  {
    JoinSplit(s, '/');
    var all := Split(s, '/');
    if |all| > 3 {
      var rest := Join(all[2..], '/');
      assert SplitN(s, '/', 3) == [all[0], all[1], rest];
      JoinThree(all[0], all[1], rest);
      assert all[1..][1..] == all[2..];
      assert Join(all[1..], '/') == all[1] + "/" + rest;
    }
  }

  function FromPath(path: seq<string>, tag: string): Image
    requires 1 <= |path| <= 3
  {
    Image(if |path| > 1 then path[0] else "", if |path| == 3 then path[1] else "", path[|path| - 1], tag)
  }

  /** Every empty segment in front of the name costs a slash. */
  lemma PrintedFromPath(path: seq<string>, tag: string)
    requires 1 <= |path| <= 3
    ensures var printed := GetImage(FromPath(path, tag));
            if (|path| > 1 ==> path[0] != "") && (|path| == 3 ==> path[1] != "")
            then printed == Join(path, '/') + ":" + tag
            else |printed| < |Join(path, '/')| + 1 + |tag|
  {
  }

  /** What is printed for the path, next to the path itself. */
  lemma PrintedPath(image: string)
    ensures var tagged := Split(image, ':');
            var img := GetImageConfig(Plain(image));
            if SegmentsFilled(image) then GetImage(img) == tagged[0] + ":" + img.tag
            else |GetImage(img)| < |tagged[0]| + 1 + |img.tag|
  {
    var first := Split(image, ':')[0];
    var path := SplitN(first, '/', 3);
    var img := GetImageConfig(Plain(image));
    assert img == FromPath(path, img.tag);
    SplitNJoin(first);
    PrintedFromPath(path, img.tag);
  }

  lemma {:induction false} PartsOfJoin(parts: seq<string>, c: char)
    requires |parts| >= 1 && c !in Join(parts, '/')
    ensures AllFree(parts, c)
  {
    if |parts| > 1 {
      PartsOfJoin(parts[1..], c);
      forall i | 0 <= i < |parts|
        ensures c !in parts[i]
      {
        if i > 0 {
          assert parts[i] == parts[1..][i - 1];
        }
      }
    }
  }

  /** A printed reference has one colon, in front of its tag. */
  lemma PrintedSplit(img: Image)
    requires ':' !in img.registry && ':' !in img.repository && ':' !in img.name && ':' !in img.tag
    ensures |Split(GetImage(img), ':')| == 2 && Split(GetImage(img), ':')[1] == img.tag
  {
    var path := GetImage(img)[..|GetImage(img)| - |img.tag| - 1];
    assert GetImage(img) == path + [':'] + img.tag;
    SplitCons(path, img.tag, ':');
    SplitFree(img.tag, ':');
  }

  lemma ParsedHasNoColon(image: string)
    ensures var img := GetImageConfig(Plain(image));
            ':' !in img.registry && ':' !in img.repository && ':' !in img.name && ':' !in img.tag && img.tag != ""
  {
    JoinSplit(image, ':');
    var tagged := Split(image, ':');
    var path := SplitN(tagged[0], '/', 3);
    SplitNJoin(tagged[0]);
    PartsOfJoin(path, ':');
  }

  /** Printing a parsed reference gives it back exactly when it has one tag and its
      segments are not empty. */
  lemma PrintParsedIff(image: string)
    ensures GetImage(GetImageConfig(Plain(image))) == image <==> OneTag(image) && SegmentsFilled(image)
  {
    var tagged := Split(image, ':');
    PrintedPath(image);
    JoinSplit(image, ':');
    ParsedHasNoColon(image);
    PrintedSplit(GetImageConfig(Plain(image)));
    if |tagged| == 2 {
      assert Join(tagged, ':') == tagged[0] + ":" + tagged[1];
    }
  }

  /** An untagged reference gains the default tag. */
  lemma UntaggedGainsLatest(image: string)
    requires ':' !in image && SegmentsFilled(image)
    ensures GetImage(GetImageConfig(Plain(image))) == image + ":" + DEFAULT_TAG
  {
    SplitFree(image, ':');
    PrintedPath(image);
  }

  // ---------- Parsing what was printed

  predicate PartFree(s: string) {
    '/' !in s && ':' !in s
  }

  predicate PartsFree(img: Image) {
    PartFree(img.registry) && PartFree(img.repository) && PartFree(img.name) && PartFree(img.tag)
  }

  function PathParts(img: Image): seq<string> {
    (if img.registry == "" then [] else [img.registry])
    + (if img.repository == "" then [] else [img.repository]) + [img.name]
  }

  lemma PrintedParts(img: Image)
    requires PartsFree(img)
    ensures Split(GetImage(img), ':') == [Join(PathParts(img), '/'), img.tag]
    ensures Split(Join(PathParts(img), '/'), '/') == PathParts(img)
  {
    var parts := PathParts(img);
    var path := Join(parts, '/');
    assert |parts| == 2 ==> parts[1..] == [img.name];
    assert |parts| == 3 ==> parts[1..][1..] == [img.name];
    if |parts| == 2 {
      JoinTwo(parts[0], parts[1]);
    } else if |parts| == 3 {
      JoinThree(parts[0], parts[1], parts[2]);
    }
    assert GetImage(img) == path + [':'] + img.tag;
    SplitJoin(parts, '/');
    NoColon(parts);
    SplitCons(path, img.tag, ':');
    SplitFree(img.tag, ':');
  }

  lemma {:induction false} NoColon(parts: seq<string>)
    requires |parts| >= 1 && AllFree(parts, ':')
    ensures ':' !in Join(parts, '/')
  {
    if |parts| > 1 {
      NoColon(parts[1..]);
    }
  }

  /** Parsing a printed reference gives it back exactly when it has a tag and not only
      the registry is empty. */
  lemma ParsePrintedIff(img: Image)
    requires PartsFree(img)
    ensures GetImageConfig(Plain(GetImage(img))) == img <==>
            img.tag != "" && !(img.registry == "" && img.repository != "")
  {
    PrintedParts(img);
  }

  /** In the exceptional case the repository is taken for the registry. */
  lemma LoneRepositoryBecomesRegistry(img: Image)
    requires PartsFree(img) && img.tag != "" && img.registry == "" && img.repository != ""
    ensures GetImageConfig(Plain(GetImage(img))) == Image(img.repository, "", img.name, img.tag)
  {
    PrintedParts(img);
  }
}
