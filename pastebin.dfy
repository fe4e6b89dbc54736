/** The request handlers of the pastebin, over an abstract store that maps a
    file path to the bytes of the file: the upload of a new paste, its
    retrieval by identifier, and the listing of every paste with the preview
    of its first line. */
module Pastebin {
  import opened Wrappers
  import opened PasteIds

  newtype Byte = b: int | 0 <= b < 256

  /** The line terminator `read_line` stops after. */
  const Newline: Byte := 10

  /** The directory every paste is stored in. */
  const UploadDir: string := "upload/"

  /** The prefix of the URL the upload handler answers with. */
  const UrlPrefix: string := "http://localhost:8000/"

  /** How many bytes of the first line the listing shows. */
  const PreviewWidth: nat := 24

  /** The path of the file holding the paste named `id`. */
  function UploadKey(id: string): string
  {
    UploadDir + id
  }

  /** Distinct identifiers are stored under distinct paths. */
  lemma UploadKeyInjective(a: string, b: string)
    requires UploadKey(a) == UploadKey(b)
    ensures a == b
  {
    assert a == UploadKey(a)[|UploadDir|..];
    assert b == UploadKey(b)[|UploadDir|..];
  }

  /** The path of a validated identifier has no separator and no dot after
      the directory prefix: it names a file directly inside `upload/`. */
  lemma UploadKeyStaysInDir(id: string)
    requires IsBase62(id)
    ensures UploadKey(id)[..|UploadDir|] == UploadDir
    ensures forall k :: |UploadDir| <= k < |UploadKey(id)| ==>
              UploadKey(id)[k] != '/' && UploadKey(id)[k] != '.'
  {
  }

  /** What `read_line` puts in the buffer: the bytes up to and including the
      first line terminator, or the whole content when it has none. */
  function FirstLine(content: seq<Byte>): (line: seq<Byte>)
    ensures line <= content
    ensures forall k :: 0 <= k < |line| - 1 ==> line[k] != Newline
    ensures line == content || (|line| > 0 && line[|line| - 1] == Newline)
  {
    if content == [] then []
    else if content[0] == Newline then [Newline]
    else [content[0]] + FirstLine(content[1..])
  }

  /** The first line of a content without a terminator is the whole content
      (a consequence of FirstLine's contract alone). */
  lemma FirstLineNoNewline(content: seq<Byte>)
    requires forall k :: 0 <= k < |content| ==> content[k] != Newline
    ensures FirstLine(content) == content
  {
  }

  /** The first line ends at the first terminator
      (a consequence of FirstLine's contract alone). */
  lemma FirstLineAtNewline(content: seq<Byte>, n: nat)
    requires n < |content| && content[n] == Newline
    requires forall k :: 0 <= k < n ==> content[k] != Newline
    ensures FirstLine(content) == content[..n + 1]
  {
  }

  /** Whether byte `i` starts a UTF-8 character of `s`, as Rust's
      `str::is_char_boundary` decides: the end of the string or any byte
      that is not a continuation byte `0b10xx_xxxx`. */
  predicate IsCharBoundary(s: seq<Byte>, i: nat)
  {
    i == |s| || (i < |s| && !(0x80 <= s[i] < 0xC0))
  }

  /** The condition under which `&paste_line[0..24]` does not panic. */
  predicate HasPreview(line: seq<Byte>)
  {
    |line| >= PreviewWidth ==> IsCharBoundary(line, PreviewWidth)
  }

  /** The snippet rule of the listing: `(ellipsis, snippet)` for a first line. */
  function Preview(line: seq<Byte>): (r: (bool, seq<Byte>))
    requires HasPreview(line)
    ensures r.1 <= line
    ensures |r.1| <= PreviewWidth
    ensures r.0 <==> |line| >= PreviewWidth
    ensures !r.0 ==> r.1 == line
    ensures r.0 ==> |r.1| == PreviewWidth
  {
    if |line| < PreviewWidth then (false, line)
    else (true, line[0..PreviewWidth])
  }

  /** The record the listing template receives for one paste. */
  datatype PasteInfo = PasteInfo(pasteId: string, snippet: seq<Byte>, ellipsis: bool)

  /** The entry of the listing for the paste `name` whose file holds `content`. */
  function Summarize(name: string, content: seq<Byte>): (info: PasteInfo)
    requires HasPreview(FirstLine(content))
    ensures info.pasteId == name
    ensures info.snippet <= content
    ensures |info.snippet| <= PreviewWidth
    ensures info.ellipsis <==> |FirstLine(content)| >= PreviewWidth
    ensures info.snippet <= FirstLine(content)
    ensures !info.ellipsis ==> info.snippet == FirstLine(content)
    ensures info.ellipsis ==> info.snippet == content[..PreviewWidth]
  {
    var (ellipsis, snippet) := Preview(FirstLine(content));
    PasteInfo(name, snippet, ellipsis)
  }

  /** Storing a paste under `id` makes the path of `id` hold exactly that
      paste and leaves the path of every other identifier as it was. */
  lemma UploadThenLookup(files: map<string, seq<Byte>>, id: string,
                         paste: seq<Byte>, other: string)
    ensures var after := files[UploadKey(id) := paste];
            UploadKey(id) in after && after[UploadKey(id)] == paste
    ensures var after := files[UploadKey(id) := paste];
            other != id ==>
              (UploadKey(other) in after <==> UploadKey(other) in files) &&
              (UploadKey(other) in files ==> after[UploadKey(other)] == files[UploadKey(other)])
  {
    if other != id && UploadKey(other) == UploadKey(id) {
      UploadKeyInjective(other, id);
    }
  }

  /** The upload directory: a map from each file's path to its bytes. */
  class PasteStore {
    var files: map<string, seq<Byte>>

    /** A store over the directory as it stands when the service starts. */
    constructor (existing: map<string, seq<Byte>>)
      ensures files == existing
    {
      files := existing;
    }

    /** The `upload` handler: draws an 8-character identifier, streams the
        body into `upload/<id>` (replacing any file already there) and
        answers with the URL of the new paste. `draws` stands for the
        random generator; `id` is the identifier it produced. */
    method Upload(paste: seq<Byte>, draws: seq<Usize>) returns (url: string, ghost id: string)
      requires 8 <= |draws|
      modifies this
      ensures |id| == 8 && IsBase62(id)
      ensures forall k :: 0 <= k < 8 ==> id[k] == Base62(draws[k] % 62)
      ensures files == old(files)[UploadKey(id) := paste]
      ensures url == UrlPrefix + id + "\n"
    {
      var pasteId := New(8, draws);
      var path := UploadDir + Display(pasteId);
      files := files[path := paste];
      url := UrlPrefix + Display(pasteId) + "\n";
      id := pasteId.id;
    }

    /** The `retrieve` handler: the bytes of `upload/<id>`, or nothing when
        there is no such file. */
    method Retrieve(id: PasteId) returns (r: Option<seq<Byte>>)
      ensures r.Some? <==> UploadKey(id.id) in files
      ensures r.Some? ==> r.value == files[UploadKey(id.id)]
    {
      var filename := UploadDir + Display(id);
      if filename in files {
        r := Some(files[filename]);
      } else {
        r := None;
      }
    }

    /** The `index` handler, without the template: one entry per file of
        `upload/`, visited in the order `names` the directory enumeration
        yields, each with the preview of the file's first line. */
    method Index(names: seq<string>) returns (pastes: seq<PasteInfo>)
      requires forall n :: n in names ==> UploadKey(n) in files
      requires forall n :: UploadKey(n) in files ==> n in names
      requires forall n :: n in names ==> HasPreview(FirstLine(files[UploadKey(n)]))
      ensures |pastes| == |names|
      ensures forall i :: 0 <= i < |names| ==>
                pastes[i] == Summarize(names[i], files[UploadKey(names[i])])
      ensures forall n :: UploadKey(n) in files ==>
                exists i :: 0 <= i < |pastes| && pastes[i].pasteId == n
    {
      pastes := [];
      for i := 0 to |names|
        invariant |pastes| == i
        invariant forall j :: 0 <= j < i ==>
                    pastes[j] == Summarize(names[j], files[UploadKey(names[j])])
      {
        var pasteId := names[i];
        assert pasteId in names;
        var pasteFilename := UploadDir;
        pasteFilename := pasteFilename + pasteId;
        var pasteLine: seq<Byte> := [];
        pasteLine := pasteLine + FirstLine(files[pasteFilename]);
        var pasteLen := |pasteLine|;
        var ellipsis, snippet;
        if pasteLen < PreviewWidth {
          ellipsis, snippet := false, pasteLine;
        } else {
          ellipsis, snippet := true, pasteLine[0..PreviewWidth];
        }
        pastes := pastes + [PasteInfo(pasteId, snippet, ellipsis)];
      }
      forall n | UploadKey(n) in files
        ensures exists i :: 0 <= i < |pastes| && pastes[i].pasteId == n
      {
        var i :| 0 <= i < |names| && names[i] == n;
        assert pastes[i].pasteId == n;
      }
    }
  }

  /** A client of the handlers: upload a body, take the identifier back out
      of the reply URL, validate it as the `/<id>` route does, and retrieve
      it. The body comes back unchanged. */
  method UploadThenRetrieve(store: PasteStore, paste: seq<Byte>, draws: seq<Usize>)
    returns (r: Option<seq<Byte>>)
    requires 8 <= |draws|
    modifies store
    ensures r == Some(paste)
  {
    var url, id := store.Upload(paste, draws);
    var segment := url[|UrlPrefix|..|url| - 1];
    assert segment == id;
    var param := FromParam(segment);
    r := store.Retrieve(param.value);
  }
}
