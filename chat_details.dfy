/** The group details button and modal: admin name, member count and member list. */
module ChatDetails {
  import opened Wrappers
  import opened Lookup
  import opened ChatData

  /** Reading `.name` of the `undefined` that `find` returns when no participant is the admin. */
  datatype RenderError = AdminNotFound

  /** Opens or closes the modal. */
  function ToggleModal(showModal: bool): (r: bool)
    ensures r != showModal
  {
    !showModal
  }

  lemma ToggleModalTwice(showModal: bool)
    ensures ToggleModal(ToggleModal(showModal)) == showModal
  {
  }

  /** The admin's name: that of the first participant whose id is the chat's
      admin id, or an error when there is none. */
  function GroupAdmin(chat: Chat): (r: Result<string, RenderError>)
    ensures r.Err? <==> forall i :: 0 <= i < |chat.users| ==> !IsAdmin(chat, chat.users[i])
    ensures r.Ok? ==> exists i :: 0 <= i < |chat.users| && IsAdmin(chat, chat.users[i]) && chat.users[i].name == r.value
                                 && forall j :: 0 <= j < i ==> !IsAdmin(chat, chat.users[j])
  {
    match FindIndex(chat.users, u => IsAdmin(chat, u))
    case None => Err(AdminNotFound)
    case Some(i) => Ok(chat.users[i].name)
  }

  /** With several participants carrying the admin id, the first one in list
      order is named. */
  lemma GroupAdminIsFirst(chat: Chat, i: nat)
    requires i < |chat.users| && IsAdmin(chat, chat.users[i])
    requires forall j :: 0 <= j < i ==> !IsAdmin(chat, chat.users[j])
    ensures GroupAdmin(chat) == Ok(chat.users[i].name)
  {
    var r := GroupAdmin(chat);
    var k :| 0 <= k < |chat.users| && IsAdmin(chat, chat.users[k]) && chat.users[k].name == r.value
             && forall j :: 0 <= j < k ==> !IsAdmin(chat, chat.users[j]);
    assert k == i;
  }

  datatype MemberRow = MemberRow(name: string, email: string)

  /** What the open modal shows. */
  datatype Modal = Modal(title: string, admin: string, totalMembers: nat, members: seq<MemberRow>)

  /** The component's output: nothing but the button while the modal is
      closed; when it is open, the chat name, the admin's name, the member
      count and one row per participant in list order, or the render error
      when the admin is not among the participants. */
  function Render(chat: Chat, showModal: bool): (r: Result<Option<Modal>, RenderError>)
    ensures !showModal ==> r == Ok(None)
    ensures showModal ==> (r.Err? <==> GroupAdmin(chat).Err?)
    ensures showModal && GroupAdmin(chat).Ok? ==> r.Ok? && r.value.Some?
    ensures r.Ok? && r.value.Some? ==>
      var m := r.value.value;
      m.title == chat.chatName && Ok(m.admin) == GroupAdmin(chat)
      && m.totalMembers == |chat.users| && |m.members| == |chat.users|
      && forall i :: 0 <= i < |chat.users| ==> m.members[i] == MemberRow(chat.users[i].name, chat.users[i].email)
  {
    if !showModal then Ok(None)
    else match GroupAdmin(chat)
      case Err(e) => Err(e)
      case Ok(admin) =>
        var rows := seq(|chat.users|, i requires 0 <= i < |chat.users| => MemberRow(chat.users[i].name, chat.users[i].email));
        Ok(Some(Modal(chat.chatName, admin, |chat.users|, rows)))
  }

  /** A group whose admin is one of its participants always renders its open modal. */
  lemma AdminMemberRenders(chat: Chat, i: nat)
    requires i < |chat.users| && IsAdmin(chat, chat.users[i])
    ensures Render(chat, true).Ok? && Render(chat, true).value.Some?
  {
  }
}
