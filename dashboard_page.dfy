/**
 * frontend/src/pages/DashboardPage.jsx: the signed-in user's own posts, with
 * create, edit and delete. The list and page-state rules it shares with the
 * home page are in `PostViews`; this module adds the floating "new post"
 * button, the create mutation and the create-or-update submit.
 */
module DashboardPage {
  import opened Wrappers
  import opened PostViews

  /** The floating button: open the modal; the selection is left as it is. */
  function OpenCreateStep(s: PageState): PageState
  {
    s.(isPostModalOpen := true)
  }

  /** The create mutation's `onSuccess`: close the modal; unlike an update it does not clear the selection. */
  function CreateSuccessStep(s: PageState): PageState
  {
    s.(isPostModalOpen := false)
  }

  /** The modal's `onSubmit`: with a post selected it updates that post, otherwise it creates one. */
  function Submit(s: PageState, title: string, content: string): (m: PostMutation)
    ensures m.UpdateMutation? <==> s.selectedPost.Some?
    ensures m.UpdateMutation? ==> m.id == s.selectedPost.value.id
    ensures m.title == title && m.content == content
  {
    if s.selectedPost.Some? then UpdateMutation(s.selectedPost.value.id, title, content)
    else CreateMutation(title, content)
  }

  /** Opening the create modal keeps both page invariants. */
  lemma OpenCreateKeepsInvariants(s: PageState)
    requires DialogHoldsTarget(s) && SelectionInModal(s)
    ensures DialogHoldsTarget(OpenCreateStep(s)) && SelectionInModal(OpenCreateStep(s))
  {
  }

  /**
   * A successful create keeps a selection inside the modal exactly when
   * nothing was selected; a post selected while the create was pending stays
   * selected with the modal closed.
   */
  lemma CreateSuccessKeepsSelectionInModal(s: PageState)
    requires SelectionInModal(s)
    ensures SelectionInModal(CreateSuccessStep(s)) <==> s.selectedPost.None?
    ensures DialogHoldsTarget(CreateSuccessStep(s)) <==> DialogHoldsTarget(s)
  {
  }

  /** Create, await success, edit again: the next submit is an update of the post picked. */
  lemma EditAfterCreateUpdates(s: PageState, post: PostView, title: string, content: string)
    ensures var t := EditStep(CreateSuccessStep(s), post);
            Submit(t, title, content) == UpdateMutation(post.id, title, content) && t.isPostModalOpen
  {
  }

  /** The page component's state fields. */
  class DashboardPage {
    var posts: seq<PostView>
    var searchQuery: string
    var isPostModalOpen: bool
    var isConfirmDialogOpen: bool
    var selectedPost: Option<PostView>
    var postToDelete: Option<int>

    function Snap(): PageState
      reads this
    {
      PageState(posts, searchQuery, isPostModalOpen, isConfirmDialogOpen, selectedPost, postToDelete)
    }

    constructor ()
      ensures Snap() == InitialPage()
    {
      posts, searchQuery := [], "";
      isPostModalOpen, isConfirmDialogOpen := false, false;
      selectedPost, postToDelete := None, None;
    }

    /** The `myPosts` query delivers a response. */
    method Receive(d: ResponseData)
      modifies this
      ensures Snap() == ReceiveStep(old(Snap()), d)
    {
      posts := Select(d);
    }

    method Search(query: string)
      modifies this
      ensures Snap() == SearchStep(old(Snap()), query)
    {
      searchQuery := query;
    }

    method HandleEdit(post: PostView)
      modifies this
      ensures Snap() == EditStep(old(Snap()), post)
    {
      selectedPost := Some(post);
      isPostModalOpen := true;
    }

    method HandleDelete(postId: int)
      modifies this
      ensures Snap() == DeleteStep(old(Snap()), postId)
    {
      postToDelete := Some(postId);
      isConfirmDialogOpen := true;
    }

    method OpenCreate()
      modifies this
      ensures Snap() == OpenCreateStep(old(Snap()))
    {
      isPostModalOpen := true;
    }

    method CloseModal()
      modifies this
      ensures Snap() == CloseModalStep(old(Snap()))
    {
      isPostModalOpen := false;
      selectedPost := None;
    }

    method CloseDialog()
      modifies this
      ensures Snap() == CloseDialogStep(old(Snap()))
    {
      isConfirmDialogOpen := false;
      postToDelete := None;
    }

    /** The modal's `onSubmit`: the mutation it starts; the state does not change. */
    method SubmitModal(title: string, content: string) returns (m: PostMutation)
      ensures m == Submit(Snap(), title, content)
    {
      if selectedPost.Some? {
        m := UpdateMutation(selectedPost.value.id, title, content);
      } else {
        m := CreateMutation(title, content);
      }
    }

    /** The dialog's `onConfirm`: the id the delete mutation is started with. */
    method ConfirmDelete() returns (target: Option<int>)
      ensures target == ConfirmTarget(Snap())
    {
      target := postToDelete;
    }

    method OnCreateSuccess()
      modifies this
      ensures Snap() == CreateSuccessStep(old(Snap()))
    {
      isPostModalOpen := false;
    }

    method OnUpdateSuccess()
      modifies this
      ensures Snap() == UpdateSuccessStep(old(Snap()))
    {
      isPostModalOpen := false;
      selectedPost := None;
    }

    method OnDeleteSuccess()
      modifies this
      ensures Snap() == DeleteSuccessStep(old(Snap()))
    {
      isConfirmDialogOpen := false;
      postToDelete := None;
    }
  }
}
