// One row of the chat history sidebar: it shows the chat's title, opens the
// chat when clicked, and turns into a text box for renaming the chat.
//
// The parent's callbacks are recorded as logs: `renames` holds each
// `onRename(id, title)` call, `opens` counts `onClick()` calls and `deletes`
// holds each `onDelete(id)` call.

module ChatHistoryItem {
  import opened Text

  /** The row's caption: the chat's title, or "New Chat" for an untitled chat. */
  function Display(chatTitle: string): (r: string)
    ensures r != []
    ensures chatTitle != [] ==> r == chatTitle
  {
    if chatTitle == [] then "New Chat" else chatTitle
  }

  /** The `onRename` call `handleRename` makes for the edited title, if any. */
  function RenameCall(chatId: string, chatTitle: string, title: string): seq<(string, string)> {
    if Trim(title) != [] && title != chatTitle then [(chatId, Trim(title))] else []
  }

  class Row {
    /** The chat this row shows (the `chat` prop). */
    const chatId: string
    const chatTitle: string

    var isEditing: bool
    /** The text in the rename box. */
    var title: string

    var renames: seq<(string, string)>
    var opens: nat
    var deletes: seq<string>

    constructor(chatId: string, chatTitle: string)
      ensures this.chatId == chatId && this.chatTitle == chatTitle
      ensures !isEditing && title == chatTitle && renames == [] && opens == 0 && deletes == []
    {
      this.chatId := chatId;
      this.chatTitle := chatTitle;
      isEditing := false;
      title := chatTitle;
      renames := [];
      opens := 0;
      deletes := [];
    }

    /** A click on the row opens the chat, unless the row is being renamed. */
    method Click()
      modifies this
      ensures opens == if old(isEditing) then old(opens) else old(opens) + 1
      ensures isEditing == old(isEditing) && title == old(title)
      ensures renames == old(renames) && deletes == old(deletes)
    {
      if !isEditing {
        opens := opens + 1;
      }
    }

    /** The pencil button starts editing. */
    method StartEditing()
      modifies this
      ensures isEditing && title == old(title)
      ensures renames == old(renames) && opens == old(opens) && deletes == old(deletes)
    {
      isEditing := true;
    }

    /** Typing in the rename box replaces its text. */
    method Type(value: string)
      modifies this
      ensures title == value && isEditing == old(isEditing)
      ensures renames == old(renames) && opens == old(opens) && deletes == old(deletes)
    {
      title := value;
    }

    /** The trash button, shown while not editing, asks the parent to delete the chat. */
    method Delete()
      requires !isEditing
      modifies this
      ensures deletes == old(deletes) + [chatId]
      ensures isEditing == old(isEditing) && title == old(title) && renames == old(renames) && opens == old(opens)
    {
      deletes := deletes + [chatId];
    }

    /**
     * `handleRename` (also run by the check button and on blur): renames the
     * chat to the trimmed text when that is not blank and the text was changed,
     * and always ends editing.
     */
    method HandleRename()
      modifies this
      ensures renames == old(renames) + RenameCall(chatId, chatTitle, old(title))
      ensures !isEditing && title == old(title)
      ensures opens == old(opens) && deletes == old(deletes)
    {
      if Trim(title) != [] && title != chatTitle {
        renames := renames + [(chatId, Trim(title))];
      }
      isEditing := false;
    }

    /** `handleKeyDown`: Enter renames; Escape restores the chat's title and ends editing; other keys do nothing. */
    method HandleKeyDown(key: string)
      modifies this
      ensures key == "Enter" ==> renames == old(renames) + RenameCall(chatId, chatTitle, old(title)) &&
                                 !isEditing && title == old(title)
      ensures key == "Escape" ==> renames == old(renames) && !isEditing && title == chatTitle
      ensures key != "Enter" && key != "Escape" ==>
                renames == old(renames) && isEditing == old(isEditing) && title == old(title)
      ensures opens == old(opens) && deletes == old(deletes)
    {
      if key == "Enter" {
        HandleRename();
      } else if key == "Escape" {
        title := chatTitle;
        isEditing := false;
      }
    }
  }

  // ---------------------------------------------------------------------------
  // Properties of the rename editor
  // ---------------------------------------------------------------------------

  /**
   * A rename is sent exactly when the text is not blank and differs from the
   * chat's title; what is sent is the chat's id and the text without the white
   * space around it, which is never empty and neither starts nor ends with
   * white space.
   */
  lemma RenameCallMeaning(chatId: string, chatTitle: string, title: string)
    ensures var r := RenameCall(chatId, chatTitle, title);
      (|r| == 1 <==> !Blank(title) && title != chatTitle) && |r| <= 1 &&
      (|r| == 1 ==> r[0].0 == chatId && r[0].1 != [] && !IsSpace(r[0].1[0]) && !IsSpace(r[0].1[|r[0].1| - 1]))
  {
    TrimEmptyIffBlank(title);
    TrimEnds(title);
  }

  /**
   * The title sent is already trimmed: once the chat carries it, confirming
   * the unchanged box again sends nothing.
   */
  lemma RenameIsStable(chatId: string, chatTitle: string, title: string)
    requires |RenameCall(chatId, chatTitle, title)| == 1
    ensures var sent := RenameCall(chatId, chatTitle, title)[0].1;
      Trim(sent) == sent && RenameCall(chatId, sent, sent) == []
  {
    TrimEnds(title);
    TrimOfTrimmed(Trim(title));
  }

  /**
   * An unchanged title, or one that is only white space, is never sent; so
   * Escape followed by a blur renames nothing, since Escape puts the chat's
   * title back into the box before `handleRename` runs.
   */
  lemma NoRenameWithoutEdit(chatId: string, chatTitle: string, title: string)
    ensures RenameCall(chatId, chatTitle, chatTitle) == []
    ensures Blank(title) ==> RenameCall(chatId, chatTitle, title) == []
  {
    TrimEmptyIffBlank(title);
  }

  /**
   * White space added around an unchanged title still counts as an edit: the
   * rename is sent, and it carries the chat's own title.
   */
  lemma PaddedTitleResent(chatId: string, chatTitle: string, pad: string)
    requires !Blank(chatTitle) && Trim(chatTitle) == chatTitle
    requires pad != [] && Blank(pad)
    ensures RenameCall(chatId, chatTitle, chatTitle + pad) == [(chatId, chatTitle)]
  {
    TrimPadded([], chatTitle, pad);
    assert [] + chatTitle + pad == chatTitle + pad;
    TrimEmptyIffBlank(chatTitle);
    assert |chatTitle + pad| != |chatTitle|;
  }
}
