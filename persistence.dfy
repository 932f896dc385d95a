/**
 * The chat store `.detritus/chats`: one file per chat id, overwritten by
 * each save. Marshal's byte format is not modelled; a file either loads
 * as the record that was dumped into it or fails to load.
 */
module Persistence {
  import opened Options
  import opened Messages

  /** What `save_chat` dumps: the chat id, model, provider and message list. */
  datatype Record = Record(id: string, model: string, provider: string, messages: seq<Message>)

  /** A chat file: a dumped record, or content that does not load as one. */
  datatype Blob = Dumped(record: Record) | Garbled

  type ChatFiles = map<string, Blob>

  /** Writing a record under its id replaces that file and no other. */
  function Store(files: ChatFiles, rec: Record): (r: ChatFiles)
    ensures r.Keys == files.Keys + {rec.id}
    ensures forall id :: id in files && id != rec.id ==> r[id] == files[id]
  {
    files[rec.id := Dumped(rec)]
  }

  /** The message list `load_chat` replays for an id: nil when the file is missing or does not load. */
  function StoredMessages(files: ChatFiles, id: string): (r: Option<seq<Message>>)
    ensures r.Some? <==> id in files && files[id].Dumped?
  {
    if id in files && files[id].Dumped? then Some(files[id].record.messages) else None
  }

  /** Loading what was just stored gives back the stored messages, in order. */
  lemma StoreThenLoad(files: ChatFiles, rec: Record, other: string)
    ensures StoredMessages(Store(files, rec), rec.id) == Some(rec.messages)
    ensures other != rec.id ==> StoredMessages(Store(files, rec), other) == StoredMessages(files, other)
  {
  }

  /** A later save under the same id replaces the earlier one entirely. */
  lemma StoreOverwrites(files: ChatFiles, first: Record, second: Record)
    requires first.id == second.id
    ensures Store(Store(files, first), second) == Store(files, second)
  {
    assert Store(Store(files, first), second).Keys == Store(files, second).Keys;
  }

  /** Every record in the store keeps the transcript invariant. */
  predicate RecordsSingleSystem(files: ChatFiles) {
    forall id :: id in files && files[id].Dumped? ==> SingleSystem(files[id].record.messages)
  }
}
