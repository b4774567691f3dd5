/** The file-list part of fly's input upload (executehelpers/uploads.go):
    split the NUL-separated output of `git ls-files -z` into names, join the
    tracked and untracked lists, and choose what to archive. */
module ExecuteHelpers {
  import opened Wrappers
  import opened Strings

  newtype byte = b: int | 0 <= b < 256

  const NUL: byte := 0

  /** A Go string is a byte sequence; `outScan.Text()` copies the token's bytes. */
  type FileName = seq<byte>

  /** The name "." (one byte 0x2E), meaning the whole directory. */
  const Dot: FileName := [46]

  /** What a `bufio.SplitFunc` returns; the third result of `scanNull` is
      always nil and is left out. None is the nil token. */
  datatype Split = Split(advance: int, token: Option<seq<byte>>)

  /** `scanNull`: the token up to the first NUL, or at end of input the
      unterminated rest; otherwise ask for more data. */
  function ScanNull(data: seq<byte>, atEOF: bool): (r: Split)
    ensures 0 <= r.advance <= |data|
    ensures r.advance == 0 <==> r.token.None?
    ensures r.token.Some? ==>
      |r.token.value| <= r.advance && r.token.value == data[..|r.token.value|] && NUL !in r.token.value
    ensures NUL in data ==>
      0 < r.advance && data[r.advance - 1] == NUL && r.token == Some(data[..r.advance - 1])
    ensures NUL !in data && atEOF && data != [] ==> r == Split(|data|, Some(data))
    ensures (atEOF && data == []) || (NUL !in data && !atEOF) ==> r == Split(0, None)
  {
    if atEOF && |data| == 0 then Split(0, None)
    else match IndexOf(data, NUL)
      case Some(i) => Split(i + 1, Some(data[0..i]))
      case None => if atEOF then Split(|data|, Some(data)) else Split(0, None)
  }

  /** The stream `git ls-files -z` writes for `names`: each name, then NUL. */
  function Join(names: seq<FileName>): seq<byte>
  {
    if names == [] then [] else names[0] + [NUL] + Join(names[1..])
  }

  /** The stream with a final NUL added when its last name is unterminated. */
  function Terminated(s: seq<byte>): seq<byte>
  {
    if s == [] || s[|s| - 1] == NUL then s else s + [NUL]
  }

  predicate NulFree(names: seq<FileName>)
  {
    forall k :: 0 <= k < |names| ==> NUL !in names[k]
  }

  /** The NUL-separated fields of a stream, the last one possibly unterminated. */
  function Fields(s: seq<byte>): seq<FileName>
    decreases |s|
  {
    if s == [] then []
    else match IndexOf(s, NUL)
      case Some(i) => [s[..i]] + Fields(s[i + 1..])
      case None => [s]
  }

  lemma {:induction false} JoinAppend(names: seq<FileName>, name: FileName)
    ensures Join(names + [name]) == Join(names) + name + [NUL]
  {
    if names != [] {
      assert (names + [name])[1..] == names[1..] + [name];
      JoinAppend(names[1..], name);
    }
  }

  lemma TerminatedAfterNul(x: seq<byte>, y: seq<byte>)
    requires x != [] && x[|x| - 1] == NUL
    ensures Terminated(x + y) == x + Terminated(y)
  {
    if y == [] {
      assert x + y == x;
    }
  }

  lemma JoinCons(head: FileName, tail: seq<FileName>)
    ensures Join([head] + tail) == head + [NUL] + Join(tail)
  {
    assert ([head] + tail)[1..] == tail;
  }

  /** The fields are NUL-free and, each terminated, give back the stream. */
  lemma {:induction false} FieldsJoin(s: seq<byte>)
    ensures NulFree(Fields(s))
    ensures Join(Fields(s)) == Terminated(s)
    decreases |s|
  {
    if s != [] {
      var i := IndexOf(s, NUL);
      if i.Some? {
        var head, rest := s[..i.value], s[i.value + 1..];
        FieldsJoin(rest);
        assert Fields(s) == [head] + Fields(rest);
        JoinCons(head, Fields(rest));
        CutAt(s, i.value);
        assert s == (head + [NUL]) + rest;
        TerminatedAfterNul(head + [NUL], rest);
      } else {
        JoinCons(s, []);
      }
    }
  }

  /** A NUL-free list of names is determined by its joined stream. */
  lemma {:induction false} JoinInjective(a: seq<FileName>, b: seq<FileName>)
    requires NulFree(a) && NulFree(b)
    requires Join(a) == Join(b)
    ensures a == b
  {
    if a != [] && b != [] {
      var ja, jb := Join(a), Join(b);
      assert ja[|a[0]|] == NUL && jb[|b[0]|] == NUL;
      assert |a[0]| == |b[0]|;
      assert a[0] == ja[..|a[0]|] == jb[..|b[0]|] == b[0];
      assert Join(a[1..]) == ja[|a[0]| + 1..];
      assert Join(b[1..]) == jb[|b[0]| + 1..];
      JoinInjective(a[1..], b[1..]);
    }
  }

  /** The fields are the only NUL-free names whose joined stream is the
      terminated input: splitting reconstructs the input and nothing else does. */
  lemma FieldsUnique(s: seq<byte>, names: seq<FileName>)
    requires NulFree(names) && Join(names) == Terminated(s)
    ensures names == Fields(s)
  {
    FieldsJoin(s);
    JoinInjective(names, Fields(s));
  }

  /** Applying `scanNull` once at end of input peels off the first field. */
  lemma ScanNullPeelsField(s: seq<byte>)
    requires s != []
    ensures var r := ScanNull(s, true);
      && r.token.Some? && r.advance > 0
      && Fields(s) == [r.token.value] + Fields(s[r.advance..])
  {
    match IndexOf(s, NUL)
    case Some(i) =>
    case None =>
      assert s[|s|..] == [];
  }

  /** A token cut at a NUL keeps the stream accounted for: the names so far,
      joined, followed by the rest of the stream, terminated, are the whole
      stream, terminated. */
  lemma NulTokenKeeps(whole: seq<byte>, names: seq<FileName>, buf: seq<byte>, tail: seq<byte>, advance: nat)
    requires 0 < advance <= |buf| && buf[advance - 1] == NUL
    requires Terminated(whole) == Join(names) + Terminated(buf + tail)
    ensures Terminated(whole) == Join(names + [buf[..advance - 1]]) + Terminated(buf[advance..] + tail)
  {
    var token, after := buf[..advance - 1], Terminated(buf[advance..] + tail);
    TokenThroughNul(buf, tail, advance);
    JoinAppend(names, token);
    assert Join(names) + (token + [NUL] + after) == (Join(names) + token + [NUL]) + after;
  }

  /** The unterminated last token keeps the stream accounted for. */
  lemma LastTokenKeeps(whole: seq<byte>, names: seq<FileName>, buf: seq<byte>)
    requires buf != [] && NUL !in buf
    requires Terminated(whole) == Join(names) + Terminated(buf + [])
    ensures Terminated(whole) == Join(names + [buf]) + Terminated(buf[|buf|..] + [])
  {
    assert buf + [] == buf && buf[|buf|..] + [] == [];
    assert buf[|buf| - 1] in buf;
    JoinAppend(names, buf);
  }

  lemma TokenThroughNul(buf: seq<byte>, rest: seq<byte>, advance: nat)
    requires 0 < advance <= |buf| && buf[advance - 1] == NUL
    ensures Terminated(buf + rest) == buf[..advance - 1] + [NUL] + Terminated(buf[advance..] + rest)
  {
    var head := buf[..advance];
    assert buf + rest == head + (buf[advance..] + rest);
    TerminatedAfterNul(head, buf[advance..] + rest);
    assert head == buf[..advance - 1] + [NUL];
  }

  /** Reading the next chunk into the buffer leaves buffered-plus-unread unchanged. */
  lemma ReadKeeps(buf: seq<byte>, chunks: seq<seq<byte>>, next: nat)
    requires next < |chunks|
    ensures buf + FlattenFrom(chunks, next) == (buf + chunks[next]) + FlattenFrom(chunks, next + 1)
  {
  }

  /** One token of the scanner keeps the names NUL-free and the stream
      accounted for. */
  lemma TokenKeeps(whole: seq<byte>, names: seq<FileName>, buf: seq<byte>, tail: seq<byte>, atEOF: bool, split: Split)
    requires split == ScanNull(buf, atEOF) && split.token.Some?
    requires atEOF ==> tail == []
    requires NulFree(names)
    requires Terminated(whole) == Join(names) + Terminated(buf + tail)
    ensures NulFree(names + [split.token.value])
    ensures Terminated(whole) == Join(names + [split.token.value]) + Terminated(buf[split.advance..] + tail)
  {
    if NUL in buf {
      NulTokenKeeps(whole, names, buf, tail, split.advance);
    } else {
      LastTokenKeeps(whole, names, buf);
    }
  }

  /** The bytes of the chunks from index `from` on, in order. */
  function FlattenFrom(chunks: seq<seq<byte>>, from: nat): seq<byte>
    decreases |chunks| - from
  {
    if from >= |chunks| then [] else chunks[from] + FlattenFrom(chunks, from + 1)
  }

  /** The whole stdout stream, whatever reads it arrived in. */
  function Flatten(chunks: seq<seq<byte>>): seq<byte>
  {
    FlattenFrom(chunks, 0)
  }

  /** One `git ls-files` run as the code sees it: the errors of
      `StdoutPipe`, `Start` and `Wait`, and the stdout bytes as delivered by
      successive reads. */
  datatype GitRun = GitRun(pipeErr: Option<Error>, startErr: Option<Error>,
                           stdout: seq<seq<byte>>, waitErr: Option<Error>)

  /** The first error of the run, in the order the code checks them. */
  function RunError(run: GitRun): Option<Error>
  {
    if run.pipeErr.Some? then run.pipeErr
    else if run.startErr.Some? then run.startErr
    else run.waitErr
  }

  /** `bufio.Scanner` with `scanNull` as its split function, reading a
      stream that arrives as `chunks`, one chunk per read. The split function
      sees the buffered unconsumed data, with `atEOF` only once the reader is
      exhausted, and more is read whenever it asks for more. */
  class Scanner {
    const chunks: seq<seq<byte>>
    var buf: seq<byte>
    var next: nat
    var token: seq<byte>
    var done: bool
    /** The tokens returned so far. */
    ghost var names: seq<FileName>

    /** The names so far, joined, followed by the unscanned rest of the
        stream, terminated, are the whole stream, terminated. */
    ghost predicate Valid()
      reads this
    {
      && next <= |chunks|
      && NulFree(names)
      && Terminated(Flatten(chunks)) == Join(names) + Terminated(Unscanned())
      && (done ==> next == |chunks| && buf == [])
    }

    /** Buffered plus not yet read. */
    ghost function Unscanned(): seq<byte>
      reads this
    {
      buf + FlattenFrom(chunks, next)
    }

    constructor (chunks: seq<seq<byte>>)
      ensures Valid() && this.chunks == chunks && names == [] && !done
    {
      this.chunks := chunks;
      buf, next, token, done := [], 0, [], false;
      names := [];
    }

    /** `Scan`: advance to the next token; false once the stream is used up. */
    method Scan() returns (ok: bool)
      requires Valid()
      modifies this
      ensures Valid()
      ensures ok ==> names == old(names) + [token] && |Unscanned()| < old(|Unscanned()|)
      ensures !ok ==> names == old(names) && done
    {
      if done {
        return false;
      }
      ghost var stream := Flatten(chunks);
      var b, n := buf, next;
      while true
        invariant n <= |chunks|
        invariant b + FlattenFrom(chunks, n) == old(Unscanned())
        invariant unchanged(this)
        decreases |chunks| - n
      {
        var atEOF := n == |chunks|;
        if |b| > 0 || atEOF {
          var split := ScanNull(b, atEOF);
          if split.token.Some? {
            ghost var tail := FlattenFrom(chunks, n);
            TokenKeeps(stream, names, b, tail, atEOF, split);
            token := split.token.value;
            names := names + [token];
            buf, next := b[split.advance..], n;
            assert Unscanned() == b[split.advance..] + tail;
            return true;
          }
          if atEOF {
            assert b == [] && FlattenFrom(chunks, n) == [];
            buf, next, done := [], n, true;
            assert Unscanned() == old(Unscanned());
            return false;
          }
        }
        ReadKeeps(b, chunks, n);
        b, n := b + chunks[n], n + 1;
      }
    }

    /** `Text`: the bytes of the latest token. */
    function Text(): FileName
      reads this
    {
      token
    }
  }

  /** `gitLS`: the names git lists, or nil and the first process error. */
  method GitLS(run: GitRun) returns (files: Option<seq<FileName>>, err: Option<Error>)
    ensures err == RunError(run)
    ensures files.Some? <==> err.None?
    ensures files.Some? ==> files.value == Fields(Flatten(run.stdout))
  {
    if run.pipeErr.Some? {
      return None, run.pipeErr;
    }
    if run.startErr.Some? {
      return None, run.startErr;
    }
    var outScan := new Scanner(run.stdout);
    var names: seq<FileName> := [];
    var more := outScan.Scan();
    while more
      invariant outScan.Valid() && outScan.chunks == run.stdout
      invariant outScan.names == if more then names + [outScan.token] else names
      invariant !more ==> outScan.done
      decreases |outScan.Unscanned()|, more
    {
      names := names + [outScan.Text()];
      more := outScan.Scan();
    }
    assert outScan.Unscanned() == [];
    if run.waitErr.Some? {
      return None, run.waitErr;
    }
    FieldsUnique(Flatten(run.stdout), names);
    return Some(names), None;
  }

  /** `getGitFiles`: the tracked list, then the untracked list (`--others
      --exclude-standard`); either failure gives nil and that error. */
  method GetGitFiles(tracked: GitRun, untracked: GitRun) returns (files: Option<seq<FileName>>, err: Option<Error>)
    ensures err == if RunError(tracked).Some? then RunError(tracked) else RunError(untracked)
    ensures files.Some? <==> err.None?
    ensures files.Some? ==> files.value == Fields(Flatten(tracked.stdout)) + Fields(Flatten(untracked.stdout))
  {
    var trackedFiles, trackedErr := GitLS(tracked);
    if trackedErr.Some? {
      return None, trackedErr;
    }
    var untrackedFiles, untrackedErr := GitLS(untracked);
    if untrackedErr.Some? {
      return None, untrackedErr;
    }
    return Some(trackedFiles.value + untrackedFiles.value), None;
  }

  /** The file list `Upload` hands to the archiver: "." when ignored files
      are included, otherwise the git files, or "." when listing fails. */
  method UploadFiles(includeIgnored: bool, tracked: GitRun, untracked: GitRun) returns (files: seq<FileName>)
    ensures includeIgnored ==> files == [Dot]
    ensures !includeIgnored && (RunError(tracked).Some? || RunError(untracked).Some?) ==> files == [Dot]
    ensures !includeIgnored && RunError(tracked).None? && RunError(untracked).None? ==>
      files == Fields(Flatten(tracked.stdout)) + Fields(Flatten(untracked.stdout))
  {
    if includeIgnored {
      files := [Dot];
    } else {
      var gitFiles, err := GetGitFiles(tracked, untracked);
      if err.Some? {
        files := [Dot];
      } else {
        files := gitFiles.value;
      }
    }
  }
}
