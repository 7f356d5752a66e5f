/** The review board: the list of posted comments (newest first), the star
    rating and text of the review being drafted, and the like toggle.

    `FirstIndexOf` and `ToggleLikeIn` specify the lookup and the like toggle
    on a list of comments; the class `ReviewBoard` holds the list and the
    draft as fields, the way the front end keeps them in globals. */
module Reviews {
  import opened Wrappers
  import opened Text
  import Session

  /** One posted review. `date` is a display label. */
  datatype Comment = Comment(
    id: int, user: string, avatar: string, comment: string,
    rating: int, date: string, likes: int, liked: bool)

  const JUST_NOW: string := "Just now"

  /** Each posted comment shows this many stars. */
  const COMMENT_STARS: nat := 5

  /** The like counter never goes below zero, and a comment the current
      user likes has been counted. */
  predicate LikesConsistent(c: Comment) {
    c.likes >= 0 && (c.liked ==> c.likes >= 1)
  }

  /** What every comment on the board satisfies: a consistent like counter,
      a rating of at least one star and some text. */
  predicate WellFormed(c: Comment) {
    LikesConsistent(c) && c.rating >= 1 && c.comment != []
  }

  /** One click on a comment's heart: `liked` flips and `likes` moves by one
      in the same direction. There is no clamp at zero. */
  function Flipped(c: Comment): Comment {
    if c.liked then c.(likes := c.likes - 1, liked := false)
    else c.(likes := c.likes + 1, liked := true)
  }

  /** Liking and unliking: the fields change as a pair, and a second click
      undoes the first. */
  lemma FlippedFields(c: Comment)
    ensures Flipped(c).liked == !c.liked
    ensures Flipped(c).likes == c.likes + (if Flipped(c).liked then 1 else -1)
    ensures Flipped(c).(likes := c.likes, liked := c.liked) == c
    ensures Flipped(Flipped(c)) == c
  {
  }

  /** A click keeps a consistent counter consistent. */
  lemma FlippedKeepsConsistent(c: Comment)
    requires LikesConsistent(c)
    ensures LikesConsistent(Flipped(c))
    ensures WellFormed(c) ==> WellFormed(Flipped(c))
  {
  }

  /** Without that invariant the counter can go negative. */
  lemma FlippedWithoutInvariant()
    ensures Flipped(Comment(7, "u", "a", "t", 1, JUST_NOW, 0, true)).likes == -1
  {
  }

  /** `comments.find(c => c.id === id)`, as a position: the first comment
      carrying `id`, or none when no comment does. */
  function FirstIndexOf(cs: seq<Comment>, id: int): (r: Option<nat>)
    ensures r.Some? ==> r.value < |cs| && cs[r.value].id == id
    ensures r.Some? ==> forall j :: 0 <= j < r.value ==> cs[j].id != id
    ensures r.None? ==> forall j :: 0 <= j < |cs| ==> cs[j].id != id
    decreases |cs|
  {
    if cs == [] then None
    else if cs[0].id == id then Some(0)
    else match FirstIndexOf(cs[1..], id)
      case None => None
      case Some(k) => Some(k + 1)
  }

  /** Position `j` holds the first comment carrying `id`. */
  predicate IsFirstWithId(cs: seq<Comment>, id: int, j: int) {
    0 <= j < |cs| && cs[j].id == id && forall k :: 0 <= k < j ==> cs[k].id != id
  }

  /** The list after a logged-in `toggleLike(id)`. */
  function ToggleLikeIn(cs: seq<Comment>, id: int): seq<Comment> {
    match FirstIndexOf(cs, id)
    case None => cs
    case Some(i) => cs[i := Flipped(cs[i])]
  }

  predicate SameIds(a: seq<Comment>, b: seq<Comment>) {
    |a| == |b| && forall j :: 0 <= j < |a| ==> a[j].id == b[j].id
  }

  /** The lookup depends on the ids alone. */
  lemma {:induction false} FirstIndexOfSameIds(a: seq<Comment>, b: seq<Comment>, id: int)
    requires SameIds(a, b)
    ensures FirstIndexOf(a, id) == FirstIndexOf(b, id)
    decreases |a|
  {
    if a != [] && a[0].id != id {
      FirstIndexOfSameIds(a[1..], b[1..], id);
    }
  }

  /** `toggleLike` changes only the first comment carrying `id`, and that
      one by a single click; every other comment, and the length and the
      order of the list, stay as they were. */
  lemma ToggleLikeInEffect(cs: seq<Comment>, id: int, j: int)
    requires 0 <= j < |cs|
    ensures |ToggleLikeIn(cs, id)| == |cs|
    ensures ToggleLikeIn(cs, id)[j] == if IsFirstWithId(cs, id, j) then Flipped(cs[j]) else cs[j]
  {
    match FirstIndexOf(cs, id)
    case None =>
    case Some(i) =>
      if IsFirstWithId(cs, id, j) {
        assert !(i < j) && !(j < i);
      }
  }

  /** With no comment carrying `id`, the list is left unchanged. */
  lemma ToggleLikeInAbsent(cs: seq<Comment>, id: int)
    requires forall j :: 0 <= j < |cs| ==> cs[j].id != id
    ensures ToggleLikeIn(cs, id) == cs
  {
  }

  /** Toggling the same id twice restores the list. */
  lemma ToggleLikeInTwice(cs: seq<Comment>, id: int)
    ensures ToggleLikeIn(ToggleLikeIn(cs, id), id) == cs
  {
    var once := ToggleLikeIn(cs, id);
    match FirstIndexOf(cs, id)
    case None =>
    case Some(i) =>
      assert SameIds(cs, once);
      FirstIndexOfSameIds(cs, once, id);
      FlippedFields(cs[i]);
  }

  /** If every comment has a consistent like counter, `toggleLike` keeps it
      so, and it keeps every comment well formed. */
  lemma ToggleLikeInKeepsConsistent(cs: seq<Comment>, id: int)
    requires forall j :: 0 <= j < |cs| ==> LikesConsistent(cs[j])
    ensures forall j :: 0 <= j < |ToggleLikeIn(cs, id)| ==> LikesConsistent(ToggleLikeIn(cs, id)[j])
    ensures (forall j :: 0 <= j < |cs| ==> WellFormed(cs[j])) ==>
      forall j :: 0 <= j < |ToggleLikeIn(cs, id)| ==> WellFormed(ToggleLikeIn(cs, id)[j])
  {
    match FirstIndexOf(cs, id)
    case None =>
    case Some(i) => FlippedKeepsConsistent(cs[i]);
  }

  /** The search behind `comments.find`, one comment at a time. */
  method FindById(cs: seq<Comment>, id: int) returns (r: Option<nat>)
    ensures r == FirstIndexOf(cs, id)
    ensures r.Some? <==> exists j :: 0 <= j < |cs| && cs[j].id == id
  {
    var i := 0;
    while i < |cs|
      invariant 0 <= i <= |cs|
      invariant forall j :: 0 <= j < i ==> cs[j].id != id
    {
      if cs[i].id == id {
        return Some(i);
      }
      i := i + 1;
    }
    return None;
  }

  /** Star `i` of a row of `count` stars is lit when `i < rating`: the
      highlight of the rating input, and the filled stars of a comment. */
  function StarsLit(count: nat, rating: int): seq<bool> {
    seq(count, i => i < rating)
  }

  function CountLit(s: seq<bool>): nat
    decreases |s|
  {
    if s == [] then 0 else CountLit(s[..|s| - 1]) + (if s[|s| - 1] then 1 else 0)
  }

  /** The lit stars are a prefix of the row, and there are as many of them
      as the rating, cut to the row's length. */
  lemma {:induction false} StarsLitCount(count: nat, rating: int)
    ensures |StarsLit(count, rating)| == count
    ensures forall i :: 0 <= i < count ==> (StarsLit(count, rating)[i] <==> i < rating)
    ensures forall i, j :: 0 <= i <= j < count && StarsLit(count, rating)[j] ==> StarsLit(count, rating)[i]
    ensures CountLit(StarsLit(count, rating)) ==
      if rating <= 0 then 0 else if rating >= count then count else rating
    decreases count
  {
    if count > 0 {
      StarsLitCount(count - 1, rating);
      assert StarsLit(count, rating)[..count - 1] == StarsLit(count - 1, rating);
    }
  }

  /** A comment's filled stars: as many as its rating, at most five. */
  lemma CommentStarsCount(c: Comment)
    requires WellFormed(c)
    ensures CountLit(StarsLit(COMMENT_STARS, c.rating)) == if c.rating >= 5 then 5 else c.rating
  {
    StarsLitCount(COMMENT_STARS, c.rating);
  }

  /** The three ways `toggleLike` ends. */
  datatype LikeOutcome = LoginRequired | NotFound | Toggled(liked: bool)

  /** The comment list, the draft's star rating and the draft's text. */
  class ReviewBoard {
    var comments: seq<Comment>
    var currentRating: nat
    var draft: string

    ghost predicate Valid()
      reads this
    {
      forall j :: 0 <= j < |comments| ==> WellFormed(comments[j])
    }

    constructor ()
      ensures Valid()
      ensures comments == [] && currentRating == 0 && draft == []
    {
      comments, currentRating, draft := [], 0, [];
    }

    /** The user typing into the comment box. */
    method EditDraft(text: string)
      modifies this
      ensures draft == text
      ensures comments == old(comments) && currentRating == old(currentRating)
    {
      draft := text;
    }

    /** A click on the star at position `index` (counted from zero). */
    method ClickStar(index: nat)
      modifies this
      ensures currentRating == index + 1
      ensures comments == old(comments) && draft == old(draft)
    {
      currentRating := index + 1;
    }

    method CancelComment()
      modifies this
      ensures draft == [] && currentRating == 0
      ensures comments == old(comments)
    {
      draft := [];
      currentRating := 0;
    }

    /** Posting the draft on behalf of the signed-in user; `id` stands for
        the creation timestamp. Returns whether the comment was posted. */
    method PostComment(session: Session.SessionManager, id: int) returns (posted: bool)
      requires Valid()
      requires session.currentUser.Some?
      modifies this
      ensures Valid()
      ensures posted <==> Trim(old(draft)) != [] && old(currentRating) != 0
      ensures !posted ==>
        comments == old(comments) && currentRating == old(currentRating) && draft == old(draft)
      ensures posted ==>
        var u := session.currentUser.value;
        comments == [Comment(id, u.name, u.avatar, Trim(old(draft)), old(currentRating), JUST_NOW, 0, false)]
                    + old(comments) &&
        currentRating == 0 && draft == []
    {
      var text := Trim(draft);
      if text == [] || currentRating == 0 {
        return false;
      }
      var u := session.currentUser.value;
      var c := Comment(id, u.name, u.avatar, text, currentRating, JUST_NOW, 0, false);
      comments := [c] + comments;
      draft := [];
      currentRating := 0;
      return true;
    }

    /** A click on a comment's heart. Signed out, it only asks for a login;
        signed in, it toggles the first comment carrying `commentId`. */
    method ToggleLike(session: Session.SessionManager, commentId: int) returns (outcome: LikeOutcome)
      requires Valid()
      modifies this
      ensures Valid()
      ensures currentRating == old(currentRating) && draft == old(draft)
      ensures !session.isLoggedIn ==> outcome == LoginRequired && comments == old(comments)
      ensures session.isLoggedIn ==> comments == ToggleLikeIn(old(comments), commentId)
      ensures session.isLoggedIn ==>
        match FirstIndexOf(old(comments), commentId)
        case None => outcome == NotFound
        case Some(i) => outcome == Toggled(comments[i].liked)
    {
      if !session.isLoggedIn {
        return LoginRequired;
      }
      var found := FindById(comments, commentId);
      match found
      case None =>
        outcome := NotFound;
      case Some(i) =>
        FlippedKeepsConsistent(comments[i]);
        comments := comments[i := Flipped(comments[i])];
        outcome := Toggled(comments[i].liked);
    }
  }

  /** Signing out touches no comment. */
  method LogoutKeepsComments(session: Session.SessionManager, board: ReviewBoard)
    requires session.Valid()
    modifies session
    ensures !session.isLoggedIn && session.currentUser == None
    ensures board.comments == old(board.comments)
  {
    session.Logout();
  }

  /** A comment with 3 likes, liked and then unliked. */
  lemma LikeTwiceScenario()
    ensures var c := Comment(42, "u", "a", "Great show!", 5, JUST_NOW, 3, false);
      ToggleLikeIn([c], 42) == [c.(likes := 4, liked := true)] &&
      ToggleLikeIn(ToggleLikeIn([c], 42), 42) == [c]
  {
  }
}
