/** The video writer's configuration: the codec chosen from the output file's
    extension, and the opening of a writer that may fail
    (`ScreenRecorder._init_writer` in capture_screen_avi.py). */
module Encoder {
  import opened Wrappers
  import opened Media

  /** An ASCII letter in lower case; every other character unchanged. */
  function LowerChar(c: char): char
  {
    if 'A' <= c <= 'Z' then (c as int + 32) as char else c
  }

  /** A string in lower case, character by character. */
  function Lower(s: string): string
  {
    seq(|s|, i requires 0 <= i < |s| => LowerChar(s[i]))
  }

  /** The position of the last occurrence of `c` in `s`, or -1 when there is none. */
  function LastIndex(s: string, c: char): (i: int)
    ensures -1 <= i < |s|
    ensures i >= 0 ==> s[i] == c
    ensures forall j :: i < j < |s| ==> s[j] != c
  {
    if |s| == 0 then -1
    else if s[|s| - 1] == c then |s| - 1
    else LastIndex(s[..|s| - 1], c)
  }

  /** The final component of a path: what follows its last separator. */
  function FileName(path: string): (name: string)
    ensures '/' !in name
    ensures |name| <= |path| && name == path[|path| - |name|..]
    ensures |name| == |path| || path[|path| - |name| - 1] == '/'
  {
    path[LastIndex(path, '/') + 1..]
  }

  /** The extension of a file name, with its dot: from the last dot on, provided
      that dot is neither the first nor the last character; "" otherwise. */
  function Suffix(name: string): (ext: string)
    ensures ext == "" || (|ext| >= 2 && ext[0] == '.' && '.' !in ext[1..])
    ensures |ext| < |name| || ext == ""
    ensures ext == name[|name| - |ext|..]
    ensures ext != "" <==> exists i :: 0 < i < |name| - 1 && name[i] == '.' && '.' !in name[i + 1..]
  {
    var i := LastIndex(name, '.');
    if 0 < i < |name| - 1 then name[i..] else ""
  }

  /** The four-character codec tag for an output path: "mp4v" for a ".mp4"
      file in any letter case, "XVID" for every other path. */
  function FourCC(path: string): (tag: string)
    ensures tag == "mp4v" || tag == "XVID"
  {
    if Lower(Suffix(FileName(path))) == ".mp4" then "mp4v" else "XVID"
  }

  /** The path ends in ".mp4", in any letter case, after a non-empty file name. */
  predicate HasMp4Extension(path: string)
  {
    |path| >= 5 && path[|path| - 5] != '/' && Lower(path[|path| - 4..]) == ".mp4"
  }

  /** The codec rule read off the path's ending, without the separator and
      dot scans `FourCC` performs. */
  function ExtensionCodec(path: string): string
  {
    if HasMp4Extension(path) then "mp4v" else "XVID"
  }

  /** A four-character string that lowers to ".mp4" is a dot followed by
      three characters that are neither dots nor separators. */
  lemma LowersToMp4(t: string)
    requires |t| == 4 && Lower(t) == ".mp4"
    ensures t[0] == '.'
    ensures forall j :: 1 <= j < 4 ==> t[j] != '.' && t[j] != '/'
  {
    var l := Lower(t);
    assert l[0] == LowerChar(t[0]) && l[1] == LowerChar(t[1]);
    assert l[2] == LowerChar(t[2]) && l[3] == LowerChar(t[3]);
  }

  /** A ".mp4" suffix of the file name puts the extension at the end of the path. */
  lemma Mp4SuffixEndsPath(path: string)
    requires Lower(Suffix(FileName(path))) == ".mp4"
    ensures HasMp4Extension(path)
  {
  }

  /** When a position holds `c` and no later one does, it is the last occurrence. */
  lemma LastIndexAt(s: string, c: char, i: int)
    requires 0 <= i < |s| && s[i] == c
    requires forall j :: i < j < |s| ==> s[j] != c
    ensures LastIndex(s, c) == i
  {
  }

  /** A path ending in a ".mp4" extension has exactly that file-name suffix. */
  lemma ExtensionIsMp4Suffix(path: string)
    requires HasMp4Extension(path)
    ensures Suffix(FileName(path)) == path[|path| - 4..]
  {
    var n := |path|;
    var tail := path[n - 4..];
    LowersToMp4(tail);
    assert forall j :: n - 5 <= j < n ==> path[j] != '/' by {
      forall j | n - 4 <= j < n ensures path[j] != '/' {
        assert path[j] == tail[j - (n - 4)];
      }
    }
    var name := FileName(path);
    assert |name| >= 5;
    var m := |name|;
    assert name[m - 4..] == tail;
    forall j | m - 4 < j < m ensures name[j] != '.' {
      assert name[j] == tail[j - (m - 4)];
    }
    assert name[m - 4] == '.' by {
      assert name[m - 4] == tail[0];
    }
    LastIndexAt(name, '.', m - 4);
  }

  /** The codec is "mp4v" exactly for paths that end in a ".mp4" extension. */
  lemma FourCCByExtension(path: string)
    ensures FourCC(path) == "mp4v" <==> HasMp4Extension(path)
  {
    if Lower(Suffix(FileName(path))) == ".mp4" {
      Mp4SuffixEndsPath(path);
    }
    if HasMp4Extension(path) {
      ExtensionIsMp4Suffix(path);
    }
  }

  /** An encoder target: an open output file with its fixed geometry, and the
      sizes of the frames written to it so far, in order. */
  datatype Writer = Writer(path: string, fourcc: string, fps: int, size: Size, frames: seq<Size>)

  /** Opening a writer for `path` at the size of the first converted frame.
      `opens` stands for whether the video library could open the file with the
      chosen codec; when it could not, the operation raises. */
  function InitWriter(frame: Size, fps: int, path: string, opens: bool): (r: Result<Writer, Fault>)
    ensures r.Failure? <==> !opens
    ensures r.Failure? ==> r.error == CannotOpen
    ensures r.Success? ==> r.value.path == path && r.value.fps == fps && r.value.size == frame && r.value.frames == []
    ensures r.Success? ==> r.value.fourcc == ExtensionCodec(path)
  {
    FourCCByExtension(path);
    var writer := Writer(path, FourCC(path), fps, frame, []);
    if opens then Success(writer) else Failure(CannotOpen)
  }
}
