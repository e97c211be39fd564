/**
 * The session chat: the send guard and the row it inserts, the row a shared
 * file becomes, the message list that grows only when the store reports an
 * insert, the history ordering and the sender initials.
 */
module Chat {
  import opened Wrappers
  import opened Strings
  import opened Seqs
  import opened Schema

  /** The sender profile joined onto a message; every field may be absent. */
  datatype Sender = Sender(firstName: Option<string>, lastName: Option<string>, avatarUrl: Option<string>, email: Option<string>)

  /** A message as the chat holds it: the stored row and its sender, if the join found one. */
  datatype ChatMessage = ChatMessage(row: MessageRow, sender: Option<Sender>)

  /** The message type of an ordinary chat line. */
  const TextType: string := "text"

  /** The extensions the image pattern `\.(jpg|jpeg|png|gif|webp)$` names. */
  const ImageExtensions: seq<string> := ["jpg", "jpeg", "png", "gif", "webp"]

  /** The path ends in one of the image extensions, ignoring ASCII case (`/…$/i`). */
  function HasImageExtension(path: string): (r: bool)
    ensures r <==> EndsWith(ToLower(path), ".jpg") || EndsWith(ToLower(path), ".jpeg") || EndsWith(ToLower(path), ".png") ||
                   EndsWith(ToLower(path), ".gif") || EndsWith(ToLower(path), ".webp")
    ensures r ==> |path| >= 4
  {
    assert "." + ImageExtensions[0] == ".jpg" && "." + ImageExtensions[1] == ".jpeg";
    assert "." + ImageExtensions[2] == ".png" && "." + ImageExtensions[3] == ".gif";
    assert "." + ImageExtensions[4] == ".webp";
    exists k :: 0 <= k < |ImageExtensions| && EndsWith(ToLower(path), "." + ImageExtensions[k])
  }

  /**
   * The message type of a shared file: `image` when the path contains `image`
   * (case-sensitive) or ends in an image extension (any case), else `file`.
   */
  function ClassifyFile(path: string): (r: string)
    ensures r == "image" || r == "file"
    ensures r == "image" <==> Contains(path, "image") || HasImageExtension(path)
  {
    if Contains(path, "image") || HasImageExtension(path) then "image" else "file"
  }

  /** The extension test ignores case: a path and its lower-cased form classify alike by extension. */
  lemma ImageExtensionIgnoresCase(path: string)
    ensures HasImageExtension(path) <==> HasImageExtension(ToLower(path))
  {
    ToLowerIdempotent(path);
  }

  /** Upper-case extensions are images: any name ending in `.JPG` is shared as an image. */
  lemma UpperCaseJpegIsImage(name: string)
    ensures ClassifyFile(name + ".JPG") == "image"
  {
    var path := name + ".JPG";
    var t := ToLower(path);
    var n := |name|;
    assert path[n] == '.' && path[n + 1] == 'J' && path[n + 2] == 'P' && path[n + 3] == 'G';
    assert t[n] == '.' && t[n + 1] == 'j' && t[n + 2] == 'p' && t[n + 3] == 'g';
    assert t[|t| - 4..] == ".jpg";
    assert "." + ImageExtensions[0] == ".jpg";
    assert EndsWith(t, "." + ImageExtensions[0]);
  }

  /** Only the last extension counts: a text file whose name mentions jpg is a file. */
  lemma InnerExtensionIsNotImage()
    ensures ClassifyFile("a.jpg.txt") == "file"
  {
    ImageExtensionLastLetter("a.jpg.txt");
    NotContainsWithoutFirst("a.jpg.txt", "image");
  }

  /** No image extension ends in anything but `g`, `p` or `f`, in either case. */
  lemma ImageExtensionLastLetter(path: string)
    requires path != [] && LowerChar(path[|path| - 1]) != 'g' && LowerChar(path[|path| - 1]) != 'p' && LowerChar(path[|path| - 1]) != 'f'
    ensures !HasImageExtension(path)
  {
    var lower := ToLower(path);
    forall k | 0 <= k < |ImageExtensions|
      ensures !EndsWith(lower, "." + ImageExtensions[k])
    {
      var ext := "." + ImageExtensions[k];
      assert ext[|ext| - 1] in "gpf";
    }
  }

  /** The store row a shared file becomes: `Shared a <type>`, with the type and the public URL. */
  function FileMessage(sessionId: Uuid, userId: Uuid, url: string, path: string): (r: MessageInsert)
    ensures r.content == "Shared a " + ClassifyFile(path)
    ensures r.messageType == Some(ClassifyFile(path)) && r.fileUrl == Some(url)
    ensures r.senderId == userId && r.sessionId == sessionId
  {
    var kind := ClassifyFile(path);
    MessageInsert("Shared a " + kind, userId, sessionId, Some(kind), Some(url))
  }

  /** The row `sendMessage` inserts for a draft: the trimmed text as a `text` message. */
  function TextMessage(sessionId: Uuid, userId: Uuid, draft: string): (r: MessageInsert)
    ensures r.senderId == userId && r.sessionId == sessionId
    ensures r.messageType == Some(TextType) && r.fileUrl.None?
    ensures r.content == Trim(draft)
  {
    MessageInsert(Trim(draft), userId, sessionId, Some(TextType), None)
  }

  /**
   * The loaded history: the session's messages in ascending `created_at`
   * order. `time` reads a timestamp as an instant.
   */
  function History(rows: seq<ChatMessage>, sessionId: Uuid, time: Timestamp -> int): (r: seq<ChatMessage>)
    ensures SortedBy(r, (m: ChatMessage) => time(m.row.createdAt))
    ensures forall m :: m in r ==> m.row.sessionId == sessionId
    ensures forall m :: m in rows && m.row.sessionId == sessionId ==> multiset(r)[m] == multiset(rows)[m]
  {
    var ofSession := (m: ChatMessage) => m.row.sessionId == sessionId;
    var own := Filter(rows, ofSession);
    FilterMultiset(rows, ofSession);
    var r := SortBy(own, (m: ChatMessage) => time(m.row.createdAt));
    assert forall m :: m in r ==> m in own by {
      forall m | m in r ensures m in own {
        assert multiset(r)[m] > 0;
      }
    }
    r
  }

  /**
   * `getUserInitials`: the first letters of first and last name when both are
   * non-empty; otherwise the upper-cased first letter of a non-empty email;
   * otherwise `U`.
   */
  function UserInitials(m: ChatMessage): (r: string)
    ensures 1 <= |r| <= 2
    ensures m.sender.Some? && Truthy(m.sender.value.firstName) && Truthy(m.sender.value.lastName) ==>
              r == [m.sender.value.firstName.value[0], m.sender.value.lastName.value[0]]
    ensures !(m.sender.Some? && Truthy(m.sender.value.firstName) && Truthy(m.sender.value.lastName)) ==>
              |r| == 1 &&
              (if m.sender.Some? && Truthy(m.sender.value.email) then r[0] == UpperChar(m.sender.value.email.value[0]) else r == "U")
  {
    if m.sender.Some? && Truthy(m.sender.value.firstName) && Truthy(m.sender.value.lastName) then
      [m.sender.value.firstName.value[0], m.sender.value.lastName.value[0]]
    else if m.sender.Some? && Truthy(m.sender.value.email) then
      [UpperChar(m.sender.value.email.value[0])]
    else
      "U"
  }

  /** A sender with no profile, or no names and no email, is shown as `U`. */
  lemma AnonymousInitials(row: MessageRow, avatar: Option<string>)
    ensures UserInitials(ChatMessage(row, None)) == "U"
    ensures UserInitials(ChatMessage(row, Some(Sender(None, None, avatar, Some(""))))) == "U"
  {
  }

  /** The initials of a sender with a lower-case email start with an upper-case letter. */
  lemma EmailInitialIsUpperCase(row: MessageRow, email: string)
    requires email != [] && 'a' <= email[0] <= 'z'
    ensures var r := UserInitials(ChatMessage(row, Some(Sender(None, None, None, Some(email)))));
            |r| == 1 && 'A' <= r[0] <= 'Z'
  {
  }

  /** The chat component's state: the shown messages, the draft and the file-upload panel. */
  class ChatView {
    var messages: seq<ChatMessage>
    var draft: string
    var showFileUpload: bool

    constructor ()
      ensures messages == [] && draft == "" && !showFileUpload
    {
      messages := [];
      draft := "";
      showFileUpload := false;
    }

    /** The history fetch: its rows replace the list; a failed fetch leaves the list as it was. */
    method Load(fetched: Option<seq<ChatMessage>>, sessionId: Uuid, time: Timestamp -> int)
      modifies this
      ensures messages == (if fetched.Some? then History(fetched.value, sessionId, time) else old(messages))
      ensures draft == old(draft) && showFileUpload == old(showFileUpload)
    {
      if fetched.Some? {
        messages := History(fetched.value, sessionId, time);
      }
    }

    /**
     * The insert-event handler: the re-fetched row goes at the end and every
     * earlier message stays; when the fetch returns nothing the list is unchanged.
     */
    method OnInsert(fetched: Option<ChatMessage>)
      modifies this
      ensures messages == old(messages) + (if fetched.Some? then [fetched.value] else [])
      ensures old(messages) <= messages
      ensures draft == old(draft) && showFileUpload == old(showFileUpload)
    {
      if fetched.Some? {
        messages := messages + [fetched.value];
      }
    }

    /**
     * `sendMessage`: with no user or a blank draft nothing is sent. Otherwise
     * the trimmed draft is inserted, and the draft is cleared only when the
     * store accepts the row. Sending never touches the shown messages.
     */
    method SendMessage(user: Option<Uuid>, sessionId: Uuid, insertOk: bool) returns (sent: Option<MessageInsert>)
      modifies this
      ensures sent.None? <==> user.None? || IsBlank(old(draft))
      ensures sent.Some? ==> sent.value == TextMessage(sessionId, user.value, old(draft)) && sent.value.content != ""
      ensures draft == (if sent.Some? && insertOk then "" else old(draft))
      ensures messages == old(messages) && showFileUpload == old(showFileUpload)
    {
      var text := Trim(draft);
      if user.None? || text == "" {
        return None;
      }
      sent := Some(TextMessage(sessionId, user.value, draft));
      assert sent.value.content == text;
      if insertOk {
        draft := "";
      }
    }

    /**
     * `handleFileUpload`: with no user nothing is sent; otherwise the file row
     * is inserted and the upload panel closes when the store accepts it.
     */
    method ShareFile(user: Option<Uuid>, sessionId: Uuid, url: string, path: string, insertOk: bool) returns (sent: Option<MessageInsert>)
      modifies this
      ensures sent.None? <==> user.None?
      ensures sent.Some? ==> sent.value == FileMessage(sessionId, user.value, url, path)
      ensures showFileUpload == (if sent.Some? && insertOk then false else old(showFileUpload))
      ensures messages == old(messages) && draft == old(draft)
    {
      if user.None? {
        return None;
      }
      sent := Some(FileMessage(sessionId, user.value, url, path));
      if insertOk {
        showFileUpload := false;
      }
    }
  }
}
