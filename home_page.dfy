/**
 * frontend/src/pages/HomePage.jsx: the public feed. It shares the list and
 * page-state rules of `PostViews` with the dashboard but has no create
 * button and no create mutation: its modal only ever edits.
 */
module HomePage {
  import opened Wrappers
  import opened PostViews

  /** The modal's `onSubmit`: an update of the selected post, and nothing without a selection. */
  function Submit(s: PageState, title: string, content: string): (m: Option<PostMutation>)
    ensures m.Some? <==> s.selectedPost.Some?
    ensures m.Some? ==> m.value == UpdateMutation(s.selectedPost.value.id, title, content)
  {
    if s.selectedPost.Some? then Some(UpdateMutation(s.selectedPost.value.id, title, content)) else None
  }

  /** On this page the modal is open exactly when a post is selected. */
  predicate ModalHoldsSelection(s: PageState)
  {
    s.isPostModalOpen <==> s.selectedPost.Some?
  }

  /** Every transition of the home page keeps the modal tied to the selection. */
  lemma StepsKeepModalHoldsSelection(s: PageState, d: ResponseData, query: string, post: PostView, postId: int)
    requires ModalHoldsSelection(s)
    ensures var all := [ReceiveStep(s, d), SearchStep(s, query), EditStep(s, post), DeleteStep(s, postId),
                        CloseModalStep(s), CloseDialogStep(s), UpdateSuccessStep(s), DeleteSuccessStep(s)];
            forall i :: 0 <= i < |all| ==> ModalHoldsSelection(all[i])
  {
  }

  /** Hence a submit from the open modal always updates the post being edited. */
  lemma OpenModalSubmitUpdates(s: PageState, title: string, content: string)
    requires ModalHoldsSelection(s) && s.isPostModalOpen
    ensures Submit(s, title, content) == Some(UpdateMutation(s.selectedPost.value.id, title, content))
  {
  }

  /** The page component's state fields. */
  class HomePage {
    var posts: seq<PostView>
    var searchQuery: string
    var isPostModalOpen: bool
    var isConfirmDialogOpen: bool
    var selectedPost: Option<PostView>
    var postToDelete: Option<int>

    function Snap(): PageState
      reads this
    {
      PageState(posts, searchQuery, isPostModalOpen, isConfirmDialogOpen, selectedPost, postToDelete)
    }

    constructor ()
      ensures Snap() == InitialPage()
      ensures ModalHoldsSelection(Snap()) && DialogHoldsTarget(Snap())
    {
      posts, searchQuery := [], "";
      isPostModalOpen, isConfirmDialogOpen := false, false;
      selectedPost, postToDelete := None, None;
    }

    /** The `posts` query delivers a response. */
    method Receive(d: ResponseData)
      modifies this
      ensures Snap() == ReceiveStep(old(Snap()), d)
    {
      posts := Select(d);
    }

    method Search(query: string)
      modifies this
      ensures Snap() == SearchStep(old(Snap()), query)
    {
      searchQuery := query;
    }

    method HandleEdit(post: PostView)
      modifies this
      ensures Snap() == EditStep(old(Snap()), post)
    {
      selectedPost := Some(post);
      isPostModalOpen := true;
    }

    method HandleDelete(postId: int)
      modifies this
      ensures Snap() == DeleteStep(old(Snap()), postId)
    {
      postToDelete := Some(postId);
      isConfirmDialogOpen := true;
    }

    method CloseModal()
      modifies this
      ensures Snap() == CloseModalStep(old(Snap()))
    {
      isPostModalOpen := false;
      selectedPost := None;
    }

    method CloseDialog()
      modifies this
      ensures Snap() == CloseDialogStep(old(Snap()))
    {
      isConfirmDialogOpen := false;
      postToDelete := None;
    }

    /** The modal's `onSubmit`: the mutation it starts, if any; the state does not change. */
    method SubmitModal(title: string, content: string) returns (m: Option<PostMutation>)
      ensures m == Submit(Snap(), title, content)
    {
      if selectedPost.Some? {
        m := Some(UpdateMutation(selectedPost.value.id, title, content));
      } else {
        m := None;
      }
    }

    /** The dialog's `onConfirm`: the id the delete mutation is started with. */
    method ConfirmDelete() returns (target: Option<int>)
      ensures target == ConfirmTarget(Snap())
    {
      target := postToDelete;
    }

    method OnUpdateSuccess()
      modifies this
      ensures Snap() == UpdateSuccessStep(old(Snap()))
    {
      isPostModalOpen := false;
      selectedPost := None;
    }

    method OnDeleteSuccess()
      modifies this
      ensures Snap() == DeleteSuccessStep(old(Snap()))
    {
      isConfirmDialogOpen := false;
      postToDelete := None;
    }
  }
}
