/**
 * The conversation store behind the HTTP handlers. Its state is the index
 * (`conversations.json`, which may not exist yet) and the transcripts
 * (`<id>.json`, one per conversation id). Each handler reads the whole
 * state, changes it and writes it back; here that is a method on one object
 * whose two fields are the two kinds of file. What a handler learns from the
 * clock, the file system or the completion API is a parameter.
 */
module Store {
  import opened ChatTypes
  import opened ConversationIndex
  import opened ChatTurn
  import opened CsvExport
  import Decimal

  const NoConversations: string := "No conversations found"
  const ConversationNotFound: string := "Conversation not found"
  const TitleRequired: string := "Title is required"
  const DeletedMessage: string := "Conversation deleted"
  const RenamedMessage: string := "Conversation renamed"

  /** The JSON export: the conversation's index record, when there is one,
      merged with its transcript. */
  datatype ExportRecord = ExportRecord(meta: Option<Meta>, messages: seq<Message>)

  /** The transcript a chat turn extends: the stored one, or `{messages: []}`
      when the file does not exist. */
  function TranscriptOrEmpty(transcripts: map<string, seq<Message>>, id: string): seq<Message>
  {
    if id in transcripts then transcripts[id] else []
  }

  /** The time the CSV export stamps from: the `createdAt` of the first index
      record with the id, or the current time when there is none. */
  function CsvCreatedAt(index: Option<seq<Meta>>, id: string, now: string): (t: string)
    ensures index.Some? && id in IdSet(index.value) ==>
              exists k :: 0 <= k < |index.value| && index.value[k].id == id && t == index.value[k].createdAt
                          && forall j :: 0 <= j < k ==> index.value[j].id != id
    ensures !(index.Some? && id in IdSet(index.value)) ==> t == now
  {
    if index.None? then now
    else
      FindByIdSpec(index.value, id);
      match FindById(index.value, id)
      case None => now
      case Some(m) => m.createdAt
  }

  /** The chat handler's choice of file prompt, made by reassigning a local
      that starts out empty. */
  method ChooseFilePrompt(filePath: Option<string>, file: Option<FileStat>) returns (filePrompt: string)
    ensures filePrompt == FilePrompt(filePath, file)
  {
    filePrompt := "";
    if Truthy(filePath) {
      if file.Some? {
        if file.value.size <= MaxInlineBytes {
          var fileName := Basename(filePath.value);
          filePrompt := InlinePrompt(fileName, file.value.text);
        } else {
          filePrompt := TooLargePrompt(Decimal.MegabytesFixed2(file.value.size));
        }
      } else {
        filePrompt := MissingFilePrompt;
      }
    }
  }

  class ConversationStore {
    var index: Option<seq<Meta>>
    var transcripts: map<string, seq<Message>>

    /** A fresh data directory: no index file and no transcript file. */
    constructor ()
      ensures index == None && transcripts == map[]
    {
      index := None;
      transcripts := map[];
    }

    /** GET /api/conversations: the index, or nothing when it does not exist. */
    function List(): (r: seq<Meta>)
      reads this
      ensures index.None? ==> r == []
      ensures index.Some? ==> r == index.value
    {
      if index.None? then [] else index.value
    }

    /** Every transcript belongs to an indexed conversation and every indexed
        conversation has a transcript. The server does not enforce this; the
        contracts below say which operations keep it. */
    predicate Consistent()
      reads this
    {
      transcripts.Keys == IdSet(List())
    }

    predicate TitlesValid()
      reads this
    {
      TitlesNonEmpty(List())
    }

    /** GET /api/conversations/:id: the transcript, or 404 when its file does
        not exist. */
    function Get(id: string): (r: Reply<seq<Message>>)
      reads this
      ensures r.Ok? <==> id in transcripts
      ensures r.Ok? ==> r.value == transcripts[id]
      ensures !r.Ok? ==> r == NotFound(ConversationNotFound)
    {
      if id in transcripts then Ok(transcripts[id]) else NotFound(ConversationNotFound)
    }

    /** POST /api/conversations: a record stamped with the current time is put
        in front of the index (which is created when missing) and the new id
        gets an empty transcript. The id is the clock in milliseconds; the
        two timestamps are two separate readings of the clock. */
    method Create(title: Option<string>, millis: nat, createdNow: string, updatedNow: string) returns (rec: Meta)
      modifies this
      ensures rec.id == Decimal.NatToString(millis) && rec.title == TitleOrDefault(title)
      ensures rec.createdAt == createdNow && rec.updatedAt == updatedNow
      ensures index == Some([rec] + old(List()))
      ensures transcripts == old(transcripts)[rec.id := []]
      ensures old(Consistent()) ==> Consistent()
      ensures old(TitlesValid()) ==> TitlesValid()
    {
      rec := Meta(Decimal.NatToString(millis), TitleOrDefault(title), createdNow, updatedNow);
      var conversations := List();
      conversations := [rec] + conversations;
      index := Some(conversations);
      transcripts := transcripts[rec.id := []];
      IdSetCons(rec, old(List()));
    }

    /** PUT /api/conversations/:id: 400 without a title, 404 without an index,
        otherwise every record with the id is renamed and stamped, and the
        reply is a success even when no record has the id. */
    method Rename(id: string, title: Option<string>, now: string) returns (r: Reply<string>)
      modifies this
      ensures !Truthy(title) ==> r == BadRequest(TitleRequired) && unchanged(this)
      ensures Truthy(title) && old(index).None? ==> r == NotFound(NoConversations) && unchanged(this)
      ensures Truthy(title) && old(index).Some? ==>
                r == Ok(RenamedMessage) && transcripts == old(transcripts)
                && index == Some(Renamed(old(index).value, id, title.value, now))
      ensures old(Consistent()) ==> Consistent()
      ensures old(TitlesValid()) ==> TitlesValid()
    {
      if !Truthy(title) {
        return BadRequest(TitleRequired);
      }
      if index.None? {
        return NotFound(NoConversations);
      }
      var conversations := index.value;
      index := Some(Renamed(conversations, id, title.value, now));
      IdSetSameIds(conversations, index.value);
      r := Ok(RenamedMessage);
    }

    /** DELETE /api/conversations/:id: 404 without an index, otherwise every
        record with the id leaves the index and the transcript, if any, is
        removed; a success even when the id was not there. */
    method Delete(id: string) returns (r: Reply<string>)
      modifies this
      ensures old(index).None? ==> r == NotFound(NoConversations) && unchanged(this)
      ensures old(index).Some? ==>
                r == Ok(DeletedMessage) && index == Some(DeleteById(old(index).value, id))
                && transcripts == old(transcripts) - {id}
      ensures old(Consistent()) ==> Consistent()
      ensures old(TitlesValid()) ==> TitlesValid()
    {
      if index.None? {
        return NotFound(NoConversations);
      }
      var conversations := index.value;
      index := Some(DeleteById(conversations, id));
      transcripts := transcripts - {id};
      IdSetDelete(conversations, id);
      if TitlesNonEmpty(conversations) {
        DeleteKeepsTitles(conversations, id);
      }
      r := Ok(DeletedMessage);
    }

    /**
     * POST /api/chat. The completion API is called with `sent` and answers
     * `reply`. With a conversation id, the transcript (or an empty one) grows
     * by the user turn and the reply, and when the index exists every record
     * with the id gets a new `updatedAt`.
     */
    method Chat(messages: seq<Message>, conversationId: Option<string>, filePath: Option<string>,
                file: Option<FileStat>, reply: Message, now: string)
      returns (sent: seq<Message>, completion: Message)
      requires Truthy(conversationId) && !Truthy(filePath) ==> |messages| > 0
      modifies this
      ensures sent == ModelMessages(messages, FilePrompt(filePath, file))
      ensures completion == reply
      ensures !Truthy(conversationId) ==> unchanged(this)
      ensures Truthy(conversationId) ==>
                var id := conversationId.value;
                transcripts == old(transcripts)[id := TranscriptOrEmpty(old(transcripts), id)
                                                      + [UserTurn(messages, FilePrompt(filePath, file)), reply]]
                && index == (if old(index).Some? then Some(Touched(old(index).value, id, now)) else None)
      ensures Truthy(conversationId) && conversationId.value in old(IdSet(List())) && old(Consistent())
              ==> Consistent()
      ensures old(TitlesValid()) ==> TitlesValid()
    {
      var filePrompt := ChooseFilePrompt(filePath, file);
      var chatMessages := if filePrompt != "" then messages + [Message("user", filePrompt)] else messages;
      sent := [SystemMessage] + chatMessages;
      completion := reply;
      if Truthy(conversationId) {
        var id := conversationId.value;
        var conversation := TranscriptOrEmpty(transcripts, id);
        ghost var before := conversation;
        if filePrompt != "" {
          conversation := conversation + [Message("user", filePrompt)];
        } else {
          conversation := conversation + [messages[|messages| - 1]];
        }
        assert conversation == before + [UserTurn(messages, filePrompt)];
        conversation := conversation + [reply];
        assert conversation == before + [UserTurn(messages, filePrompt), reply];
        transcripts := transcripts[id := conversation];
        if index.Some? {
          var conversations := index.value;
          index := Some(Touched(conversations, id, now));
          IdSetSameIds(conversations, index.value);
        }
      }
    }

    /** GET /api/export/:id/json: 404 without a transcript, otherwise the
        transcript merged with the first index record that has the id. */
    function ExportJson(id: string): (r: Reply<ExportRecord>)
      reads this
      ensures r.Ok? <==> id in transcripts
      ensures !r.Ok? ==> r == NotFound(ConversationNotFound)
      ensures r.Ok? ==> r.value.messages == transcripts[id]
      ensures r.Ok? ==> (r.value.meta.Some? <==> id in IdSet(List()))
      ensures r.Ok? && r.value.meta.Some? ==>
                exists k :: 0 <= k < |List()| && List()[k] == r.value.meta.value && List()[k].id == id
                            && forall j :: 0 <= j < k ==> List()[j].id != id
    {
      if id !in transcripts then NotFound(ConversationNotFound)
      else
        FindByIdSpec(List(), id);
        Ok(ExportRecord(FindById(List(), id), transcripts[id]))
    }

    /** GET /api/export/:id/csv: 404 without a transcript, otherwise the CSV
        text of the transcript, stamped from the conversation's creation time. */
    method ExportCsv(id: string, now: string, stamp: (string, nat) -> string) returns (r: Reply<string>)
      ensures r.Ok? <==> id in transcripts
      ensures !r.Ok? ==> r == NotFound(ConversationNotFound)
      ensures r.Ok? ==> r.value == CsvDocument(transcripts[id], CsvCreatedAt(index, id, now), stamp)
    {
      if id !in transcripts {
        return NotFound(ConversationNotFound);
      }
      var conversation := transcripts[id];
      var createdAt := now;
      if index.Some? {
        var metadata := FindById(index.value, id);
        if metadata.Some? {
          createdAt := metadata.value.createdAt;
        }
      }
      var csv := BuildCsv(conversation, createdAt, stamp);
      r := Ok(csv);
    }
  }

  /** Creating a conversation titled "Test" and sending "hello" into it leaves
      the transcript holding that message and the model's reply, in order. */
  method CreateThenChat(millis: nat, createdNow: string, updatedNow: string, chatNow: string, reply: Message)
    returns (transcript: Reply<seq<Message>>)
    ensures transcript == Ok([Message("user", "hello"), reply])
  {
    var store := new ConversationStore();
    var rec := store.Create(Some("Test"), millis, createdNow, updatedNow);
    assert rec.id in store.transcripts && store.transcripts[rec.id] == [];
    var sent, completion := store.Chat([Message("user", "hello")], Some(rec.id), None, None, reply, chatNow);
    assert UserTurn([Message("user", "hello")], "") == Message("user", "hello");
    assert store.transcripts[rec.id] == [] + [Message("user", "hello"), reply];
    assert store.transcripts[rec.id] == [Message("user", "hello"), reply];
    transcript := store.Get(rec.id);
  }

  /** A conversation created without a title is listed first as "New
      Conversation"; once deleted it is no longer listed and fetching it is a
      404. */
  method CreateThenDelete(millis: nat, createdNow: string, updatedNow: string)
    returns (listed: seq<Meta>, afterDelete: seq<Meta>, fetched: Reply<seq<Message>>)
    ensures |listed| == 1 && listed[0].title == DefaultTitle && listed[0].id == Decimal.NatToString(millis)
    ensures afterDelete == [] && fetched == NotFound(ConversationNotFound)
  {
    var store := new ConversationStore();
    var rec := store.Create(None, millis, createdNow, updatedNow);
    listed := store.List();
    var deleted := store.Delete(rec.id);
    afterDelete := store.List();
    fetched := store.Get(rec.id);
  }

  /** A chat turn naming an id the index does not hold still writes a
      transcript for it, so the store stops being consistent. */
  method ChatOrphansTranscript(reply: Message) returns (consistentBefore: bool, consistentAfter: bool)
    ensures consistentBefore && !consistentAfter
  {
    var store := new ConversationStore();
    var rec := store.Create(None, 0, "t", "t");
    consistentBefore := store.Consistent();
    var sent, completion := store.Chat([Message("user", "hi")], Some("x"), None, None, reply, "t");
    assert "x" in store.transcripts && "x" !in IdSet(store.List());
    consistentAfter := store.Consistent();
  }
}
