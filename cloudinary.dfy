/** Image deletion (lib/cloudinary.ts, `deleteImage`): the public id of an
    uploaded image is read from its URL, and the image is destroyed in the
    application's folder. The destroy call is a foreign call: its outcome is
    a parameter. */
module Cloudinary {
  import opened Common

  const Folder: string := "art-project/"
  const InvalidUrl: string := "Invalid image URL"

  /** `s.split(sep)` for a one-character separator: the pieces between
      separators, in order; never an empty list. */
  function Split(s: string, sep: char): (r: seq<string>)
    ensures |r| >= 1
    decreases |s|
  {
    if s == [] then [""]
    else if s[0] == sep then [""] + Split(s[1..], sep)
    else
      var rest := Split(s[1..], sep);
      [[s[0]] + rest[0]] + rest[1..]
  }

  /** `parts.join(sep)`. */
  function Join(parts: seq<string>, sep: char): string
    requires |parts| >= 1
    decreases |parts|
  {
    if |parts| == 1 then parts[0] else parts[0] + [sep] + Join(parts[1..], sep)
  }

  /** Splitting loses nothing: joining the pieces gives the string back, and
      no piece holds the separator. */
  lemma {:induction false} SplitJoin(s: string, sep: char)
    ensures Join(Split(s, sep), sep) == s
    ensures forall i :: 0 <= i < |Split(s, sep)| ==> sep !in Split(s, sep)[i]
    decreases |s|
  {
    if s != [] {
      var rest := Split(s[1..], sep);
      SplitJoin(s[1..], sep);
      if s[0] == sep {
        assert Split(s, sep)[1..] == rest;
        assert s == [sep] + s[1..];
      } else {
        var parts := Split(s, sep);
        assert parts[1..] == rest[1..];
        if |rest| > 1 {
          assert Join(rest, sep) == rest[0] + [sep] + Join(rest[1..], sep);
        }
        assert s == [s[0]] + s[1..];
        forall i | 0 <= i < |parts| ensures sep !in parts[i] {
          if i > 0 {
            assert parts[i] == rest[i];
          }
        }
      }
    }
  }

  /** The last piece comes after the last separator. */
  lemma {:induction false} JoinLast(parts: seq<string>, sep: char)
    requires |parts| >= 2
    ensures Join(parts, sep) == Join(parts[..|parts| - 1], sep) + [sep] + parts[|parts| - 1]
    decreases |parts|
  {
    if |parts| > 2 {
      JoinLast(parts[1..], sep);
      assert parts[1..][..|parts| - 2] == parts[..|parts| - 1][1..];
    }
  }

  /** The first piece comes before the first separator. */
  lemma JoinFirst(parts: seq<string>, sep: char)
    requires |parts| >= 1
    ensures |parts| == 1 ==> Join(parts, sep) == parts[0]
    ensures |parts| > 1 ==> Join(parts, sep) == parts[0] + [sep] + Join(parts[1..], sep)
  {
  }

  /** `imageUrl.split('/').pop()`: the text after the last slash. */
  function LastSegment(url: string): (r: string)
    ensures '/' !in r
  {
    var parts := Split(url, '/');
    SplitJoin(url, '/');
    parts[|parts| - 1]
  }

  /** `segment.split('.')[0]`: the text before the first dot. */
  function BeforeFirstDot(segment: string): (r: string)
    ensures '.' !in r
  {
    SplitJoin(segment, '.');
    Split(segment, '.')[0]
  }

  /** The public id: the last path segment, cut before its first dot. */
  function PublicId(url: string): (r: string)
    ensures '/' !in r && '.' !in r
  {
    var segment := LastSegment(url);
    var id := BeforeFirstDot(segment);
    SplitJoin(segment, '.');
    JoinFirst(Split(segment, '.'), '.');
    id
  }

  /** The last segment is what follows the last slash, or the whole URL. */
  lemma LastSegmentSpec(url: string)
    ensures exists a :: url == a + LastSegment(url) && (a == [] || a[|a| - 1] == '/')
  {
    var parts := Split(url, '/');
    SplitJoin(url, '/');
    if |parts| == 1 {
      assert url == [] + LastSegment(url);
    } else {
      JoinLast(parts, '/');
      var a := Join(parts[..|parts| - 1], '/') + ['/'];
      assert url == a + LastSegment(url);
    }
  }

  /** The text before the first dot is followed by nothing, or by a dot. */
  lemma BeforeFirstDotSpec(segment: string)
    ensures exists b :: segment == BeforeFirstDot(segment) + b && (b == [] || b[0] == '.')
  {
    var pieces := Split(segment, '.');
    SplitJoin(segment, '.');
    JoinFirst(pieces, '.');
    if |pieces| == 1 {
      assert segment == BeforeFirstDot(segment) + [];
    } else {
      var b := ['.'] + Join(pieces[1..], '.');
      assert segment == BeforeFirstDot(segment) + b;
    }
  }

  /** The URL is a prefix ending in a slash (or nothing), then the public id,
      then a suffix that is empty or starts with a dot and has no slash. */
  lemma PublicIdSpec(url: string)
    ensures exists a, b ::
      && url == a + PublicId(url) + b
      && (a == [] || a[|a| - 1] == '/')
      && (b == [] || b[0] == '.')
      && '/' !in b
  {
    var segment := LastSegment(url);
    LastSegmentSpec(url);
    BeforeFirstDotSpec(segment);
    var a :| url == a + segment && (a == [] || a[|a| - 1] == '/');
    var b :| segment == BeforeFirstDot(segment) + b && (b == [] || b[0] == '.');
    assert url == a + PublicId(url) + b;
  }

  /** What `deleteImage` does: the destroy target it passes, if it gets that
      far, and the error it rethrows, if any. */
  datatype DeleteOutcome = DeleteOutcome(destroyed: Option<string>, error: Option<string>)

  /** `deleteImage`: an empty public id throws before any destroy; otherwise
      the image is destroyed as "art-project/" + id, and an error from the
      destroy call is rethrown. */
  function DeleteImage(imageUrl: string, destroyError: Option<string>): (r: DeleteOutcome)
    ensures PublicId(imageUrl) == "" <==> r.destroyed.None?
    ensures PublicId(imageUrl) == "" ==> r.error == Some(InvalidUrl)
    ensures r.destroyed.Some? ==> r.destroyed.value == Folder + PublicId(imageUrl) && r.error == destroyError
  {
    var publicId := PublicId(imageUrl);
    if publicId == "" then DeleteOutcome(None, Some(InvalidUrl))
    else DeleteOutcome(Some(Folder + publicId), destroyError)
  }

  /** The public id is empty exactly when the URL ends in a slash, or its last
      segment starts with a dot. */
  lemma {:induction false} EmptyPublicIdIff(url: string)
    ensures PublicId(url) == "" <==> LastSegment(url) == "" || LastSegment(url)[0] == '.'
  {
    var segment := LastSegment(url);
    var pieces := Split(segment, '.');
    SplitJoin(segment, '.');
    JoinFirst(pieces, '.');
    if segment != [] && segment[0] != '.' {
      assert pieces[0] == [segment[0]] + Split(segment[1..], '.')[0];
    }
  }
}
