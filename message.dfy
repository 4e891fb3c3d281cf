/** One message bubble in the thread: the four layout choices that depend on
    who sent it. */
module MessageLayout {

  /** The conditional class of each layout choice: the column alignment, the
      row direction, the text alignment and the bubble's rounded corners. */
  datatype Layout = Layout(chatAlign: string, rowDirection: string, textAlign: string, bubbleCorners: string)

  /** How the login user's own messages are laid out: at the end, avatar after the text, right-aligned. */
  const OwnLayout := Layout("items-end", "", "text-right", "rounded-l-lg rounded-tr-lg")
  /** How everybody else's messages are laid out: at the start, row reversed, left-aligned. */
  const OtherLayout := Layout("items-start", "flex-row-reverse", "text-left ", "rounded-r-lg rounded-tl-lg")

  /** Each of the four choices compares the login user's id with the sender's
      id on its own; together they always give one of the two layouts, chosen
      by whether the login user sent the message. */
  function MessageLayout(loginId: string, senderId: string): (r: Layout)
    ensures r == if loginId == senderId then OwnLayout else OtherLayout
  {
    Layout(
      if loginId == senderId then "items-end" else "items-start",
      if loginId != senderId then "flex-row-reverse" else "",
      if loginId != senderId then "text-left " else "text-right",
      if loginId != senderId then "rounded-r-lg rounded-tl-lg" else "rounded-l-lg rounded-tr-lg")
  }

  /** The four choices agree with one another for every pair of ids: end
      alignment, an unreversed row, right-aligned text and left-rounded corners
      go together, and they mean the login user sent the message. */
  lemma ChoicesAgree(loginId: string, senderId: string)
    ensures var r := MessageLayout(loginId, senderId);
      (r.chatAlign == "items-end" <==> loginId == senderId)
      && (r.rowDirection == "flex-row-reverse" <==> loginId != senderId)
      && (r.textAlign == "text-right" <==> loginId == senderId)
      && (r.bubbleCorners == "rounded-l-lg rounded-tr-lg" <==> loginId == senderId)
      && (r.chatAlign == "items-end" <==> r.rowDirection == "")
      && (r.rowDirection == "" <==> r.textAlign == "text-right")
      && (r.textAlign == "text-right" <==> r.bubbleCorners == "rounded-l-lg rounded-tr-lg")
  {
  }

  /** The layout is a function of whether the sender is the login user and of
      nothing else about the message or the ids. */
  lemma DependsOnlyOnSelf(login1: string, sender1: string, login2: string, sender2: string)
    requires (login1 == sender1) == (login2 == sender2)
    ensures MessageLayout(login1, sender1) == MessageLayout(login2, sender2)
  {
  }
}
