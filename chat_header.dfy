/** The chat box header: picture, title and the group controls. */
module ChatHeader {
  import opened Wrappers
  import opened Lookup
  import opened ChatData
  import ChatDetails

  /** The fixed picture shown for every group chat. */
  const GroupIcon := "https://cdn-icons-png.flaticon.com/512/2043/2043173.png"

  /** Reading `.pic` or `.name` of the `undefined` that `find` returns on a
      direct chat in which every participant is the login user. */
  datatype RenderError = SelectedUserNotFound

  /** The other party of the chat: the first participant whose id is not the login user's. */
  function SelectedUser(chat: Chat, loginId: string): (r: Option<Participant>)
    ensures r.None? <==> forall i :: 0 <= i < |chat.users| ==> chat.users[i].id == loginId
    ensures r.Some? ==> exists i :: 0 <= i < |chat.users| && chat.users[i] == r.value && r.value.id != loginId
                                   && forall j :: 0 <= j < i ==> chat.users[j].id == loginId
  {
    match FindIndex(chat.users, (u: Participant) => u.id != loginId)
    case None => None
    case Some(i) => Some(chat.users[i])
  }

  datatype Header = Header(pic: string, title: string, showsDetails: bool, showsUpdateGroup: bool)

  /** A group chat always renders, with the group icon, its name, the details
      button and, for its admin only, the update button. A direct chat shows
      the other party's picture and name and no group control, and fails to
      render when there is no other party. */
  function Render(chat: Chat, loginId: string): (r: Result<Header, RenderError>)
    ensures chat.isGroupChat ==> r.Ok? && r.value.pic == GroupIcon && r.value.title == chat.chatName
    ensures !chat.isGroupChat ==> (r.Err? <==> SelectedUser(chat, loginId).None?)
    ensures !chat.isGroupChat && r.Ok? ==>
      r.value.pic == SelectedUser(chat, loginId).value.pic && r.value.title == SelectedUser(chat, loginId).value.name
    ensures r.Ok? ==> (r.value.showsDetails <==> chat.isGroupChat)
    ensures r.Ok? ==> (r.value.showsUpdateGroup <==> chat.isGroupChat && chat.groupAdmin == Some(loginId))
  {
    var selected := SelectedUser(chat, loginId);
    if !chat.isGroupChat && selected.None? then Err(SelectedUserNotFound)
    else
      var pic := if chat.isGroupChat then GroupIcon else selected.value.pic;
      var title := if chat.isGroupChat then chat.chatName else selected.value.name;
      Ok(Header(pic, title, chat.isGroupChat, chat.isGroupChat && chat.groupAdmin == Some(loginId)))
  }

  /** In a direct chat between two different people, each sees the other's name and picture. */
  lemma DirectChatShowsOtherParty(chat: Chat, me: Participant, other: Participant)
    requires !chat.isGroupChat && chat.users == [me, other] && me.id != other.id
    ensures Render(chat, me.id) == Ok(Header(other.pic, other.name, false, false))
    ensures Render(chat, other.id) == Ok(Header(me.pic, me.name, false, false))
  {
    assert SelectedUser(chat, me.id) == Some(other) by {
      var r := SelectedUser(chat, me.id);
      assert chat.users[1].id != me.id;
      var i :| 0 <= i < |chat.users| && chat.users[i] == r.value && r.value.id != me.id
               && forall j :: 0 <= j < i ==> chat.users[j].id == me.id;
      assert i == 1;
    }
    assert SelectedUser(chat, other.id) == Some(me) by {
      var r := SelectedUser(chat, other.id);
      assert chat.users[0].id != other.id;
      var i :| 0 <= i < |chat.users| && chat.users[i] == r.value && r.value.id != other.id
               && forall j :: 0 <= j < i ==> chat.users[j].id == other.id;
      assert i == 0;
    }
  }

  /** When the header offers the update button, the login user is the group's
      admin; if that user is also listed among the participants, the details
      modal it shows beside the button opens without error. */
  lemma UpdateGroupImpliesDetailsRender(chat: Chat, loginId: string, i: nat)
    requires Render(chat, loginId).Ok? && Render(chat, loginId).value.showsUpdateGroup
    requires i < |chat.users| && chat.users[i].id == loginId
    ensures Render(chat, loginId).value.showsDetails
    ensures ChatDetails.Render(chat, true).Ok?
  {
    assert IsAdmin(chat, chat.users[i]);
    ChatDetails.AdminMemberRenders(chat, i);
  }
}
