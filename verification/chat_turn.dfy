/**
 * Assembly of one chat turn: the prompt synthesised from an uploaded file,
 * the message list handed to the completion API, and the user turn that is
 * written to the transcript. The file system and the completion API are
 * outside the model: what the server learns from them is passed in.
 */
module ChatTurn {
  import opened ChatTypes
  import Decimal

  /** What `fs.existsSync` / `fs.statSync` / `fs.readFileSync` report for an
      uploaded file that exists: its size in bytes and its text. */
  datatype FileStat = FileStat(size: nat, text: string)

  /** Files up to 5 * 1024 * 1024 bytes are inlined into the prompt. */
  const MaxInlineBytes: nat := 5 * Decimal.BytesPerMegabyte

  const SystemPrompt: string :=
    "You are a cybersecurity expert, and will assist users in securing their applications. If the user shares files, analyze them carefully to provide security insights."

  const MissingFilePrompt: string := "The file you uploaded could not be found or accessed."

  const InlineFooter: string := "\n\nPlease analyze or respond to the content of this file."

  const InlineLead: string := "The user has uploaded a file named \""

  function InlineHeader(name: string): string
  {
    InlineLead + name + "\". Here is the content of the file:\n\n"
  }

  function InlinePrompt(name: string, text: string): string
  {
    InlineHeader(name) + text + InlineFooter
  }

  const TooLargeLead: string := "The user has uploaded a file that is too large to process directly ("

  function TooLargePrompt(megabytes: string): string
  {
    TooLargeLead + megabytes + " MB). Please provide instructions on how you'd like me to analyze this file."
  }

  /** The path with its trailing slashes removed. */
  function StripTrailingSlashes(p: string): (q: string)
    ensures |q| <= |p| && q == p[..|q|]
    ensures q == [] || q[|q| - 1] != '/'
    ensures forall i :: |q| <= i < |p| ==> p[i] == '/'
  {
    if p != [] && p[|p| - 1] == '/' then StripTrailingSlashes(p[..|p| - 1]) else p
  }

  /** The characters after the last slash. */
  function LastSegment(p: string): (b: string)
    ensures |b| <= |p| && b == p[|p| - |b|..]
    ensures '/' !in b
    ensures |b| == |p| || p[|p| - |b| - 1] == '/'
  {
    if p == [] || p[|p| - 1] == '/' then [] else LastSegment(p[..|p| - 1]) + [p[|p| - 1]]
  }

  /** `path.basename` on POSIX paths: the last segment, trailing slashes ignored. */
  function Basename(p: string): (b: string)
    ensures '/' !in b
  {
    LastSegment(StripTrailingSlashes(p))
  }

  lemma {:induction false} LastSegmentAfterSlash(dir: string, name: string)
    requires '/' !in name
    ensures LastSegment(dir + "/" + name) == name
  {
    var p := dir + "/" + name;
    if name == [] {
      assert p[|p| - 1] == '/';
    } else {
      var init := name[..|name| - 1];
      assert p[..|p| - 1] == dir + "/" + init;
      assert p[|p| - 1] == name[|name| - 1];
      LastSegmentAfterSlash(dir, init);
      assert init + [name[|name| - 1]] == name;
    }
  }

  /** The name of an upload stored as `<dir>/<name>` is `<name>`. */
  lemma BasenameOfJoin(dir: string, name: string)
    requires name != [] && '/' !in name
    ensures Basename(dir + "/" + name) == name
  {
    var p := dir + "/" + name;
    assert p[|p| - 1] == name[|name| - 1];
    assert StripTrailingSlashes(p) == p;
    LastSegmentAfterSlash(dir, name);
  }

  /** A path without a slash is its own base name. */
  lemma {:induction false} LastSegmentNoSlash(p: string)
    requires '/' !in p
    ensures LastSegment(p) == p
  {
    if p != [] {
      var init := p[..|p| - 1];
      assert '/' !in init by {
        forall i | 0 <= i < |init| ensures init[i] != '/' {
          assert init[i] == p[i];
        }
      }
      LastSegmentNoSlash(init);
      assert init + [p[|p| - 1]] == p;
    }
  }

  lemma BasenameNoSlash(p: string)
    requires '/' !in p
    ensures Basename(p) == p
  {
    assert p == [] || p[|p| - 1] in p;
    assert StripTrailingSlashes(p) == p;
    LastSegmentNoSlash(p);
  }

  /** A trailing slash does not change the base name. */
  lemma BasenameTrailingSlash(p: string)
    ensures Basename(p + "/") == Basename(p)
  {
    assert (p + "/")[..|p + "/"| - 1] == p;
  }

  /**
   * The prompt the chat handler synthesises from the request's `filePath`
   * and what the file system says about that path: nothing without a path,
   * a fixed notice when the file is missing, the file's name and full text
   * when it is at most 5 MB, and a notice with its size otherwise.
   */
  function FilePrompt(filePath: Option<string>, file: Option<FileStat>): (p: string)
    ensures p == "" <==> !Truthy(filePath)
  {
    if !Truthy(filePath) then ""
    else if file.None? then MissingFilePrompt
    else if file.value.size <= MaxInlineBytes then InlinePrompt(Basename(filePath.value), file.value.text)
    else TooLargePrompt(Decimal.MegabytesFixed2(file.value.size))
  }

  /** A file of at most 5 MB is inlined: the prompt names the file by its
      base name and carries its text. */
  lemma SmallFileInlined(filePath: Option<string>, size: nat, text: string)
    requires Truthy(filePath) && size <= MaxInlineBytes
    ensures FilePrompt(filePath, Some(FileStat(size, text))) == InlinePrompt(Basename(filePath.value), text)
  {
  }

  /** The inlined text is the whole file: cutting the header naming the file
      and the fixed footer off the prompt gives back the text. */
  lemma InlinedTextRecoverable(name: string, text: string)
    ensures var p := InlinePrompt(name, text);
            var h := |InlineHeader(name)|;
            h + |InlineFooter| <= |p|
            && p[..h] == InlineHeader(name)
            && p[h..|p| - |InlineFooter|] == text
  {
  }

  /** A file over 5 MB contributes only its size: its text and its path do
      not reach the prompt. */
  lemma TooLargeIgnoresContent(path1: Option<string>, path2: Option<string>, size: nat, text1: string, text2: string)
    requires Truthy(path1) && Truthy(path2) && size > MaxInlineBytes
    ensures FilePrompt(path1, Some(FileStat(size, text1))) == FilePrompt(path2, Some(FileStat(size, text2)))
  {
  }

  /** The three non-empty prompts are told apart by their opening words. */
  lemma FilePromptCasesDistinct(name: string, text: string, megabytes: string)
    ensures InlinePrompt(name, text) != TooLargePrompt(megabytes)
    ensures InlinePrompt(name, text) != MissingFilePrompt
    ensures TooLargePrompt(megabytes) != MissingFilePrompt
  {
    ReadCaseInline(name, text);
    ReadCaseTooLarge(megabytes);
    ReadCaseMissing();
  }


  /** Which of the four branches of the file-prompt choice applies. */
  datatype PromptCase = NoFile | Missing | Inlined | TooLarge

  function CaseOf(filePath: Option<string>, file: Option<FileStat>): PromptCase
  {
    if !Truthy(filePath) then NoFile
    else if file.None? then Missing
    else if file.value.size <= MaxInlineBytes then Inlined
    else TooLarge
  }

  /** Reads the branch back from a prompt: empty, or by the character at
      position 29, just after "The user has uploaded a file " in the inlined
      ("named") and too-large ("that") prompts, where the missing-file notice
      has the 'o' of "not". */
  function ReadCase(p: string): PromptCase
  {
    if p == "" then NoFile
    else if |p| > 29 && p[29] == 'n' then Inlined
    else if |p| > 29 && p[29] == 't' then TooLarge
    else Missing
  }

  lemma ReadCaseMissing()
    ensures ReadCase(MissingFilePrompt) == Missing
  {
    assert MissingFilePrompt[29] == 'o';
  }

  lemma ReadCaseInline(name: string, text: string)
    ensures ReadCase(InlinePrompt(name, text)) == Inlined
  {
    var lead := InlineLead + name;
    var header := InlineHeader(name);
    assert InlineLead[29] == 'n';
    assert lead[29] == 'n';
    assert header[29] == 'n';
    assert (header + text)[29] == 'n';
  }

  lemma ReadCaseTooLarge(megabytes: string)
    ensures ReadCase(TooLargePrompt(megabytes)) == TooLarge
  {
    var lead := TooLargeLead + megabytes;
    assert TooLargeLead[29] == 't';
    assert lead[29] == 't';
  }

  /** The branch taken can be read back from the prompt it produced. */
  lemma ReadCaseOfFilePrompt(filePath: Option<string>, file: Option<FileStat>)
    ensures ReadCase(FilePrompt(filePath, file)) == CaseOf(filePath, file)
  {
    var p := FilePrompt(filePath, file);
    if !Truthy(filePath) {
      assert p == "";
    } else if file.None? {
      assert p == MissingFilePrompt;
      ReadCaseMissing();
    } else if file.value.size <= MaxInlineBytes {
      var name := Basename(filePath.value);
      assert p == InlinePrompt(name, file.value.text);
      ReadCaseInline(name, file.value.text);
    } else {
      var mb := Decimal.MegabytesFixed2(file.value.size);
      assert p == TooLargePrompt(mb);
      ReadCaseTooLarge(mb);
    }
  }

  /** Requests that fall in different branches get different prompts. */
  lemma FilePromptShowsCase(path1: Option<string>, file1: Option<FileStat>,
                            path2: Option<string>, file2: Option<FileStat>)
    requires CaseOf(path1, file1) != CaseOf(path2, file2)
    ensures FilePrompt(path1, file1) != FilePrompt(path2, file2)
  {
    ReadCaseOfFilePrompt(path1, file1);
    ReadCaseOfFilePrompt(path2, file2);
  }

  const SystemMessage: Message := Message("system", SystemPrompt)

  /** The message list sent to the completion API: the fixed system message,
      the client's messages unchanged, then the file prompt as one more user
      message when there is one. */
  function ModelMessages(messages: seq<Message>, prompt: string): (r: seq<Message>)
    ensures |r| == |messages| + (if prompt == "" then 1 else 2)
    ensures r[0] == SystemMessage
    ensures r[1..|messages| + 1] == messages
    ensures prompt != "" ==> r[|r| - 1] == Message("user", prompt)
  {
    [SystemMessage] + (if prompt != "" then messages + [Message("user", prompt)] else messages)
  }

  /** The user turn the chat handler appends to the transcript: always the
      last message that was sent to the completion API. */
  function UserTurn(messages: seq<Message>, prompt: string): (m: Message)
    requires prompt != "" || |messages| > 0
    ensures var sent := ModelMessages(messages, prompt); m == sent[|sent| - 1]
  {
    if prompt != "" then Message("user", prompt) else messages[|messages| - 1]
  }
  /** With a file path on both requests, the stored user turn is the file
      prompt, so turns from different branches differ. */
  lemma StoredTurnShowsFileCase(messages1: seq<Message>, path1: Option<string>, file1: Option<FileStat>,
                                messages2: seq<Message>, path2: Option<string>, file2: Option<FileStat>)
    requires Truthy(path1) && Truthy(path2)
    requires CaseOf(path1, file1) != CaseOf(path2, file2)
    ensures UserTurn(messages1, FilePrompt(path1, file1)) != UserTurn(messages2, FilePrompt(path2, file2))
  {
    FilePromptShowsCase(path1, file1, path2, file2);
  }

  /** Without a file path the stored turn is the client's own last message,
      which can carry the same text as a file-case turn. */
  lemma NoPathTurnCanMatchFileTurn()
    ensures UserTurn([Message("user", MissingFilePrompt)], FilePrompt(None, None))
            == UserTurn([Message("user", "hi")], FilePrompt(Some("a.txt"), None))
  {
  }

}
