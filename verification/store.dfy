/** `ChromaStore`: five collections (users, chats, messages, document
    chunks, prompt templates) modelled as immutable maps from record id to
    record. Every operation takes the state and returns the next one; the
    ids (`uuid4`) and timestamps (`_now_iso`) the source generates are
    parameters, and a fresh id is one not yet used as a key. */
module Store {
  import opened Common
  import opened Sorting

  datatype User = User(id: string, username: string, passwordHash: string, fullName: Option<string>, createdAt: string)

  datatype Chat = Chat(id: string, userId: string, title: string, createdAt: string, updatedAt: string)

  datatype Message = Message(
    id: string, chatId: string, userId: string, role: string, content: string,
    promptTemplateId: Option<string>, sources: seq<string>, createdAt: string)

  datatype DocumentChunk = DocumentChunk(source: string, chunkText: string, embedding: seq<real>)

  /** A stored prompt template: its document (the template text) and the
      `name` and `created_at` metadata, any of which may be absent. */
  datatype StoredTemplate = StoredTemplate(document: Option<string>, name: Option<string>, createdAt: Option<string>)

  /** The dictionary the template getters return. */
  datatype PromptTemplate = PromptTemplate(id: string, name: string, template: string)

  datatype State = State(
    users: map<string, User>,
    chats: map<string, Chat>,
    messages: map<string, Message>,
    documents: map<string, DocumentChunk>,
    templates: map<string, StoredTemplate>)

  const EmptyState: State := State(map[], map[], map[], map[], map[])

  /** Every record is stored under its own id, and a username belongs to at
      most one user. */
  ghost predicate Valid(s: State) {
    && (forall k :: k in s.users ==> s.users[k].id == k)
    && (forall k :: k in s.chats ==> s.chats[k].id == k)
    && (forall k :: k in s.messages ==> s.messages[k].id == k)
    && (forall k1, k2 :: k1 in s.users && k2 in s.users && s.users[k1].username == s.users[k2].username ==> k1 == k2)
  }

  /** Chroma's `update` of one record: a record whose id is not stored is
      ignored. */
  function Update<V>(m: map<string, V>, id: string, v: V): (m': map<string, V>)
    ensures m'.Keys == m.Keys
    ensures id in m ==> m'[id] == v
    ensures forall k :: k in m && k != id ==> m'[k] == m[k]
  {
    if id in m then m[id := v] else m
  }

  // ---------------------------------------------------------------- templates

  datatype Persona = Persona(id: string, name: string, text: string)

  const Professional := Persona(
    "persona_professional", "Professional Agent",
    "Use a formal and professional call-center tone. "
    + "Give clear, policy-aligned answers from retrieved PDF context only. "
    + "Do not add information outside the PDFs.")

  const Empathetic := Persona(
    "persona_empathetic", "Empathetic Agent",
    "Respond with empathy and reassurance like a customer-care specialist. "
    + "Acknowledge customer concern first, then provide steps from retrieved PDF context only. "
    + "Do not add information outside the PDFs.")

  const Resolution := Persona(
    "persona_resolution", "Resolution Agent",
    "Focus on fast resolution. Give short step-by-step actions with numbered points. "
    + "Use retrieved PDF context only and avoid extra assumptions.")

  function Stored(p: Persona, now: string): StoredTemplate {
    StoredTemplate(Some(p.text), Some(p.name), Some(now))
  }

  /** `seed_prompt_templates`: whatever templates existed are deleted and
      exactly the three personas are stored; nothing else changes. */
  function SeedPromptTemplates(s: State, now: string): (s': State)
    ensures s'.templates.Keys == {"persona_professional", "persona_empathetic", "persona_resolution"}
    ensures forall p :: p in {Professional, Empathetic, Resolution} ==> s'.templates[p.id] == Stored(p, now)
    ensures s' == s.(templates := s'.templates)
  {
    s.(templates := map[
      Professional.id := Stored(Professional, now),
      Empathetic.id := Stored(Empathetic, now),
      Resolution.id := Stored(Resolution, now)])
  }

  /** Seeding twice is seeding once: the earlier template set, seeded or
      not, never shows through. */
  lemma SeedIdempotent(s: State, t1: string, t2: string)
    ensures SeedPromptTemplates(SeedPromptTemplates(s, t1), t2) == SeedPromptTemplates(s, t2)
  {
  }

  /** The public view of a stored template, with the source's defaults: the
      name falls back to "Template" and a missing text to "". */
  function View(id: string, t: StoredTemplate): (v: PromptTemplate)
    ensures v.id == id
    ensures t.name.None? ==> v.name == "Template"
    ensures t.name.Some? ==> v.name == t.name.value
    ensures t.document.None? ==> v.template == ""
    ensures t.document.Some? ==> v.template == t.document.value
  {
    PromptTemplate(id, t.name.GetOr("Template"), t.document.GetOr(""))
  }

  /** `get_prompt_template`: nothing for a missing or empty id or an id not
      stored, otherwise the stored template with defaults filled in. */
  function GetPromptTemplate(s: State, templateId: Option<string>): (r: Option<PromptTemplate>)
    ensures r.Some? <==> templateId.Some? && templateId.value != "" && templateId.value in s.templates
    ensures r.Some? ==> r.value == View(templateId.value, s.templates[templateId.value])
  {
    if templateId.None? || templateId.value == "" then None
    else if templateId.value !in s.templates then None
    else Some(View(templateId.value, s.templates[templateId.value]))
  }

  /** After seeding, every persona id resolves to that persona's name and
      text, and no other id resolves at all. */
  lemma SeededTemplatesResolve(s: State, now: string, id: string)
    ensures var r := GetPromptTemplate(SeedPromptTemplates(s, now), Some(id));
      && (r.Some? <==> id in {"persona_professional", "persona_empathetic", "persona_resolution"})
      && (id == Professional.id ==> r == Some(PromptTemplate(id, Professional.name, Professional.text)))
      && (id == Empathetic.id ==> r == Some(PromptTemplate(id, Empathetic.name, Empathetic.text)))
      && (id == Resolution.id ==> r == Some(PromptTemplate(id, Resolution.name, Resolution.text)))
  {
    var s' := SeedPromptTemplates(s, now);
    assert Professional in {Professional, Empathetic, Resolution};
    assert Empathetic in {Professional, Empathetic, Resolution};
    assert Resolution in {Professional, Empathetic, Resolution};
  }

  /** `list_prompt_templates`: one view per stored template, each id once,
      in the collection's (unspecified) order. */
  method ListPromptTemplates(s: State) returns (r: seq<PromptTemplate>)
    ensures |r| == |s.templates|
    ensures forall i :: 0 <= i < |r| ==> r[i].id in s.templates && r[i] == View(r[i].id, s.templates[r[i].id])
    ensures forall id :: id in s.templates ==> exists i :: 0 <= i < |r| && r[i].id == id
  {
    var pending := s.templates.Keys;
    r := [];
    while pending != {}
      invariant pending <= s.templates.Keys
      invariant |r| + |pending| == |s.templates|
      invariant forall i :: 0 <= i < |r| ==> r[i].id in s.templates && r[i] == View(r[i].id, s.templates[r[i].id])
      invariant forall id :: id in s.templates ==> id in pending || exists i :: 0 <= i < |r| && r[i].id == id
      decreases |pending|
    {
      var id :| id in pending;
      ghost var before := r;
      r := r + [View(id, s.templates[id])];
      forall id' | id' in s.templates && id' !in pending - {id}
        ensures exists i :: 0 <= i < |r| && r[i].id == id'
      {
        if id' == id {
          assert r[|r| - 1].id == id;
        } else {
          var i :| 0 <= i < |before| && before[i].id == id';
          assert r[i] == before[i];
        }
      }
      pending := pending - {id};
    }
  }

  // -------------------------------------------------------------------- users

  predicate HasUsername(s: State, username: string) {
    exists k :: k in s.users && s.users[k].username == username
  }

  /** `get_user_by_username`: some user with that name, or nothing when
      there is none; in a valid store that user is the only one. */
  method GetUserByUsername(s: State, username: string) returns (r: Option<User>)
    ensures r.Some? <==> HasUsername(s, username)
    ensures r.Some? ==> r.value in s.users.Values && r.value.username == username
    ensures Valid(s) && r.Some? ==> r.value == s.users[r.value.id]
  {
    if k :| k in s.users && s.users[k].username == username {
      r := Some(s.users[k]);
    } else {
      r := None;
    }
  }

  /** `get_user_by_id`: in a valid store the user found carries that id. */
  function GetUserById(s: State, userId: string): (r: Option<User>)
    ensures r.Some? <==> userId in s.users
    ensures Valid(s) && r.Some? ==> r.value.id == userId
  {
    if userId in s.users then Some(s.users[userId]) else None
  }

  /** `create_user`: an existing username returns its user and changes
      nothing; otherwise exactly one user with that name is added. */
  method CreateUser(s: State, username: string, passwordHash: string, fullName: Option<string>, newId: string, now: string)
    returns (s': State, u: User)
    requires newId !in s.users
    ensures HasUsername(s, username) ==> s' == s && u in s.users.Values && u.username == username
    ensures !HasUsername(s, username) ==>
      && u == User(newId, username, passwordHash, fullName, now)
      && s'.users.Keys == s.users.Keys + {newId}
      && s'.users[newId] == u
      && (forall k :: k in s.users ==> s'.users[k] == s.users[k])
      && s' == s.(users := s'.users)
    ensures Valid(s) ==> Valid(s')
    ensures HasUsername(s', username)
  {
    var existing := GetUserByUsername(s, username);
    if existing.Some? {
      return s, existing.value;
    }
    u := User(newId, username, passwordHash, fullName, now);
    s' := s.(users := s.users[newId := u]);
    assert s'.users[newId].username == username;
  }

  /** `update_user_password`: false and no change when the username is
      unknown; otherwise true, and in a valid store only that user's
      `password_hash` changes. */
  method UpdateUserPassword(s: State, username: string, passwordHash: string) returns (s': State, ok: bool)
    ensures ok <==> HasUsername(s, username)
    ensures !ok ==> s' == s
    ensures s' == s.(users := s'.users)
    ensures s'.users.Keys == s.users.Keys
    ensures Valid(s) && ok ==> forall k :: k in s.users ==>
      s'.users[k] == if s.users[k].username == username then s.users[k].(passwordHash := passwordHash) else s.users[k]
    ensures Valid(s) ==> Valid(s')
    ensures HasUsername(s', username) <==> HasUsername(s, username)
  {
    var user := GetUserByUsername(s, username);
    if user.None? {
      return s, false;
    }
    var updated := user.value.(passwordHash := passwordHash);
    s' := s.(users := Update(s.users, updated.id, updated));
    ok := true;
    var k :| k in s.users && s.users[k] == user.value;
    assert s'.users[k].username == username;
  }

  // -------------------------------------------------------------------- chats

  function UpdatedAt(c: Chat): string { c.updatedAt }

  /** The order of `list_chats`: most recently updated first. */
  predicate NewerFirst(a: Chat, b: Chat) { StrLe(b.updatedAt, a.updatedAt) }

  /** `list_chats`: exactly the user's chats, most recently updated first. */
  method ListChats(s: State, userId: string) returns (r: seq<Chat>)
    ensures forall c :: c in r ==> c in s.chats.Values && c.userId == userId
    ensures forall k :: k in s.chats && s.chats[k].userId == userId ==> s.chats[k] in r
    ensures |r| == |set k | k in s.chats && s.chats[k].userId == userId|
    ensures Sorted(r, NewerFirst)
  {
    KeyOrderTotalPreorder(NewerFirst, UpdatedAt, true);
    var pending := set k | k in s.chats && s.chats[k].userId == userId;
    ghost var owned := pending;
    r := [];
    while pending != {}
      invariant pending <= owned
      invariant |r| + |pending| == |owned|
      invariant forall c :: c in r ==> c in s.chats.Values && c.userId == userId
      invariant forall k :: k in owned ==> k in pending || s.chats[k] in r
      invariant Sorted(r, NewerFirst)
      decreases |pending|
    {
      var k :| k in pending;
      InsertSorted(s.chats[k], r, NewerFirst);
      r := Insert(s.chats[k], r, NewerFirst);
      pending := pending - {k};
    }
  }

  /** `create_chat`: one new chat owned by `user_id`, with the given title
      (by default "New Chat") and equal creation and update times. */
  method CreateChat(s: State, userId: string, newId: string, now: string, title: string := "New Chat")
    returns (s': State, c: Chat)
    requires newId !in s.chats
    ensures c.id == newId && c.userId == userId && c.title == title
    ensures c.createdAt == c.updatedAt == now
    ensures s'.chats.Keys == s.chats.Keys + {newId} && s'.chats[newId] == c
    ensures forall k :: k in s.chats ==> s'.chats[k] == s.chats[k]
    ensures s' == s.(chats := s'.chats)
    ensures Valid(s) ==> Valid(s')
  {
    c := Chat(newId, userId, title, now, now);
    s' := s.(chats := s.chats[newId := c]);
  }

  /** `get_chat`: in a valid store the chat found carries that id. */
  function GetChat(s: State, chatId: string): (r: Option<Chat>)
    ensures r.Some? <==> chatId in s.chats
    ensures Valid(s) && r.Some? ==> r.value.id == chatId
  {
    if chatId in s.chats then Some(s.chats[chatId]) else None
  }

  /** `update_chat`: the stored chat with that id is replaced, others kept. */
  function UpdateChat(s: State, chat: Chat): (s': State)
    ensures s'.chats.Keys == s.chats.Keys
    ensures chat.id in s.chats ==> s'.chats[chat.id] == chat
    ensures forall k :: k in s.chats && k != chat.id ==> s'.chats[k] == s.chats[k]
    ensures s' == s.(chats := s'.chats)
  {
    s.(chats := Update(s.chats, chat.id, chat))
  }

  const TitleLimit: nat := 60

  /** The title a chat takes from its first user message: the content when
      it has at most 60 characters, otherwise its first 60 followed by "...". */
  function DerivedTitle(content: string): (t: string)
    ensures |content| <= TitleLimit ==> t == content
    ensures |content| > TitleLimit ==> |t| == TitleLimit + 3 && t[..TitleLimit] == content[..TitleLimit] && t[TitleLimit..] == "..."
  {
    if |content| > TitleLimit then content[..TitleLimit] + "..." else content
  }

  /** The chat as `add_message` rewrites it. */
  function Touched(chat: Chat, role: string, content: string, now: string): Chat {
    var c := chat.(updatedAt := now);
    if chat.title == "New Chat" && role == "user" then c.(title := DerivedTitle(content)) else c
  }

  // ----------------------------------------------------------------- messages

  function CreatedAt(m: Message): string { m.createdAt }

  /** The order of `list_messages`: oldest first. */
  predicate OlderFirst(a: Message, b: Message) { StrLe(a.createdAt, b.createdAt) }

  /** `add_message`: stores the message (with no sources as []), even when
      the chat does not exist; an existing chat gets the new update time,
      and a chat still titled "New Chat" takes its title from a user
      message. */
  method AddMessage(
    s: State, chatId: string, userId: string, role: string, content: string,
    newId: string, createdAt: string, touchedAt: string,
    promptTemplateId: Option<string> := None, sources: Option<seq<string>> := None)
    returns (s': State, m: Message)
    requires newId !in s.messages
    ensures m == Message(newId, chatId, userId, role, content, promptTemplateId, sources.GetOr([]), createdAt)
    ensures s'.messages.Keys == s.messages.Keys + {newId} && s'.messages[newId] == m
    ensures forall k :: k in s.messages ==> s'.messages[k] == s.messages[k]
    ensures s' == s.(messages := s'.messages, chats := s'.chats)
    ensures chatId !in s.chats ==> s'.chats == s.chats
    ensures s'.chats.Keys == s.chats.Keys
    ensures Valid(s) && chatId in s.chats ==>
      var old_ := s.chats[chatId];
      var new_ := s'.chats[chatId];
      && (forall k :: k in s.chats && k != chatId ==> s'.chats[k] == s.chats[k])
      && new_.updatedAt == touchedAt
      && new_.id == old_.id && new_.userId == old_.userId && new_.createdAt == old_.createdAt
      && (old_.title == "New Chat" && role == "user" ==> new_.title == DerivedTitle(content))
      && (!(old_.title == "New Chat" && role == "user") ==> new_.title == old_.title)
    ensures Valid(s) ==> Valid(s')
  {
    m := Message(newId, chatId, userId, role, content, promptTemplateId, sources.GetOr([]), createdAt);
    s' := s.(messages := s.messages[newId := m]);
    var chat := GetChat(s', chatId);
    if chat.Some? {
      s' := UpdateChat(s', Touched(chat.value, role, content, touchedAt));
    }
  }

  /** `list_messages`: exactly the chat's messages, oldest first. */
  method ListMessages(s: State, chatId: string) returns (r: seq<Message>)
    ensures forall m :: m in r ==> m in s.messages.Values && m.chatId == chatId
    ensures forall k :: k in s.messages && s.messages[k].chatId == chatId ==> s.messages[k] in r
    ensures |r| == |set k | k in s.messages && s.messages[k].chatId == chatId|
    ensures Sorted(r, OlderFirst)
  {
    KeyOrderTotalPreorder(OlderFirst, CreatedAt, false);
    var pending := set k | k in s.messages && s.messages[k].chatId == chatId;
    ghost var inChat := pending;
    r := [];
    while pending != {}
      invariant pending <= inChat
      invariant |r| + |pending| == |inChat|
      invariant forall m :: m in r ==> m in s.messages.Values && m.chatId == chatId
      invariant forall k :: k in inChat ==> k in pending || s.messages[k] in r
      invariant Sorted(r, OlderFirst)
      decreases |pending|
    {
      var k :| k in pending;
      InsertSorted(s.messages[k], r, OlderFirst);
      r := Insert(s.messages[k], r, OlderFirst);
      pending := pending - {k};
    }
  }

  // ---------------------------------------------------------------- documents

  /** `clear_documents`: the document collection becomes empty and nothing
      else changes. */
  function ClearDocuments(s: State): (s': State)
    ensures |s'.documents| == 0
    ensures s' == s.(documents := s'.documents)
  {
    s.(documents := map[])
  }

  /** `add_document_chunk`: exactly one new chunk is stored. */
  function AddDocumentChunk(s: State, source: string, chunkText: string, embedding: seq<real>, newId: string): (s': State)
    requires newId !in s.documents
    ensures |s'.documents| == |s.documents| + 1
    ensures newId in s'.documents && s'.documents[newId] == DocumentChunk(source, chunkText, embedding)
    ensures forall k :: k in s.documents ==> k in s'.documents && s'.documents[k] == s.documents[k]
    ensures s' == s.(documents := s'.documents)
  {
    s.(documents := s.documents[newId := DocumentChunk(source, chunkText, embedding)])
  }

  /** The raw answer of a Chroma nearest-neighbour query: one list per query
      embedding for each included field, any of which may be missing. */
  datatype RawQueryResult = RawQueryResult(
    documents: Option<seq<seq<string>>>,
    metadatas: Option<seq<seq<Option<map<string, string>>>>>,
    distances: Option<seq<seq<Option<real>>>>)

  /** A chunk as the store returns it from a query. */
  datatype RetrievedChunk = RetrievedChunk(source: string, chunkText: string, distance: Option<real>)

  const UnknownSource: string := "unknown.pdf"

  /** The results of the one query sent: the first inner list of a field,
      or nothing when the field is missing or empty. */
  function FirstQuery<T>(field: Option<seq<seq<T>>>): seq<T> {
    if field.None? || |field.value| == 0 then [] else field.value[0]
  }

  function SourceOf(metadata: Option<map<string, string>>): string {
    if metadata.Some? && "source" in metadata.value then metadata.value["source"] else UnknownSource
  }

  /** The nearest-neighbour search itself: given the query embedding and the
      number of results asked for, the raw result. It is a parameter. */
  type NearestQuery = (seq<real>, int) -> RawQueryResult

  /** `query_document_chunks`: the three parallel result lists zipped up to
      the shortest, in the store's order, each chunk's source taken from its
      metadata or "unknown.pdf" when absent. */
  function QueryDocumentChunks(nearest: NearestQuery, queryEmbedding: seq<real>, topK: int): (r: seq<RetrievedChunk>)
    ensures var raw := nearest(queryEmbedding, topK);
      var docs, metas, dists := FirstQuery(raw.documents), FirstQuery(raw.metadatas), FirstQuery(raw.distances);
      && |r| == Min(|docs|, Min(|metas|, |dists|))
      && forall i :: 0 <= i < |r| ==>
           && r[i].chunkText == docs[i]
           && r[i].distance == dists[i]
           && (metas[i].Some? && "source" in metas[i].value ==> r[i].source == metas[i].value["source"])
           && (!(metas[i].Some? && "source" in metas[i].value) ==> r[i].source == UnknownSource)
  {
    var raw := nearest(queryEmbedding, topK);
    var docs, metas, dists := FirstQuery(raw.documents), FirstQuery(raw.metadatas), FirstQuery(raw.distances);
    var n := Min(|docs|, Min(|metas|, |dists|));
    seq(n, i requires 0 <= i < n => RetrievedChunk(SourceOf(metas[i]), docs[i], dists[i]))
  }
}
