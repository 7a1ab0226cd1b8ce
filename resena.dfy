/** The review controller (`ResenaController`): reviews of publications that are found only
    when marked private-mode true, at most one review per user and publication, author-only
    update and deletion, and listing newest id first. */
module Reviews {
  import opened Wrappers
  import opened Text
  import opened Seqs
  import opened Domain

  /** No two reviews share author and publication. */
  predicate OnePerAuthor(rs: seq<Resena>) {
    forall i, j :: 0 <= i < j < |rs| ==> !(rs[i].publicacionId == rs[j].publicacionId && rs[i].author == rs[j].author)
  }

  /** Some review of `publicacionId` by `author` exists. */
  predicate HasReview(rs: seq<Resena>, publicacionId: nat, author: Email) {
    exists r :: r in rs && r.publicacionId == publicacionId && r.author == author
  }

  /** Adding a review for a pair that has none keeps one review per pair. */
  lemma AppendKeepsOnePerAuthor(rs: seq<Resena>, x: Resena)
    requires OnePerAuthor(rs) && !HasReview(rs, x.publicacionId, x.author)
    ensures OnePerAuthor(rs + [x])
  {
    var s := rs + [x];
    forall i, j | 0 <= i < j < |s| ensures !(s[i].publicacionId == s[j].publicacionId && s[i].author == s[j].author) {
      if j == |rs| {
        assert s[i] in rs;
      }
    }
  }

  /** Removing a review keeps one review per pair. */
  lemma RemoveKeepsOnePerAuthor(rs: seq<Resena>, k: nat)
    requires OnePerAuthor(rs) && k < |rs|
    ensures OnePerAuthor(RemoveAt(rs, k))
  {
    var s := RemoveAt(rs, k);
    assert s == rs[..k] + rs[k + 1..];
    forall i, j | 0 <= i < j < |s| ensures !(s[i].publicacionId == s[j].publicacionId && s[i].author == s[j].author) {
      var i' := if i < k then i else i + 1;
      var j' := if j < k then j else j + 1;
      assert s[i] == rs[i'] && s[j] == rs[j'];
    }
  }

  /** Changing score or comment keeps one review per pair. */
  lemma UpdateKeepsOnePerAuthor(rs: seq<Resena>, k: nat, x: Resena)
    requires OnePerAuthor(rs) && k < |rs|
    requires x.publicacionId == rs[k].publicacionId && x.author == rs[k].author
    ensures OnePerAuthor(rs[k := x])
  {
  }

  function FindReview(rs: seq<Resena>, id: nat): (r: Option<nat>)
    ensures r.Some? ==> r.value < |rs| && rs[r.value].id == id
    ensures r.None? <==> forall x :: x in rs ==> x.id != id
  {
    if rs == [] then None
    else if rs[0].id == id then Some(0)
    else
      var rest := FindReview(rs[1..], id);
      if rest.Some? then Some(rest.value + 1) else None
  }

  function ReviewId(r: Resena): int { r.id }

  /** `data.commentario || null`: an empty comment is stored as none. */
  function StoredComment(c: Option<string>): (r: Option<string>)
    ensures r.Some? <==> c.Some? && c.value != []
    ensures r.Some? ==> r == c
  {
    if Truthy(c) then c else None
  }

  class ResenaController {
    var resenas: seq<Resena>
    var publications: seq<Publicacion>
    var users: seq<User>
    var nextId: nat

    ghost predicate Valid()
      reads this
    {
      OnePerAuthor(resenas) && forall x :: x in resenas ==> x.id < nextId
    }

    constructor (publications: seq<Publicacion>, users: seq<User>)
      ensures Valid() && resenas == [] && this.publications == publications && this.users == users
    {
      resenas := [];
      this.publications := publications;
      this.users := users;
      nextId := 0;
    }

    /** `canAccessPublication(id)`: the publication with that id whose private mode is true,
        else 404; access is then always granted. */
    function CanAccessPublication(publicacionId: nat): (r: Result<Publicacion>)
      reads this
      ensures r.Ok? ==> r.value in publications && r.value.id == publicacionId && r.value.privacityMode
      ensures r.Err? <==> forall p :: p in publications ==> !(p.id == publicacionId && p.privacityMode)
      ensures r.Err? ==> r.status == NotFound
    {
      var found := Filter(publications, (p: Publicacion) => p.id == publicacionId && p.privacityMode);
      if found == [] then Err(NotFound) else Ok(found[0])
    }

    /** `createResena(publicacionId, caller, {score, commentario})`. */
    method CreateResena(publicacionId: nat, caller: Email, score: int, commentario: Option<string>) returns (r: Result<Resena>)
      requires Valid()
      modifies this
      ensures Valid()
      ensures publications == old(publications) && users == old(users)
      ensures var access := old(CanAccessPublication(publicacionId));
        if access.Err? then r == Err(NotFound) && resenas == old(resenas)
        else if access.value.owner == caller then r == Err(BadRequest) && resenas == old(resenas)
        else if HasReview(old(resenas), publicacionId, caller) then r == Err(BadRequest) && resenas == old(resenas)
        else if FindByCorreo(users, caller).None? then r == Err(NotFound) && resenas == old(resenas)
        else r == Ok(Resena(old(nextId), publicacionId, caller, score, StoredComment(commentario))) &&
             resenas == old(resenas) + [r.value]
    {
      var access := CanAccessPublication(publicacionId);
      if access.Err? {
        return Err(access.status);
      }
      if access.value.owner == caller {
        return Err(BadRequest);
      }
      if exists x :: x in resenas && x.publicacionId == publicacionId && x.author == caller {
        return Err(BadRequest);
      }
      if FindByCorreo(users, caller).None? {
        return Err(NotFound);
      }
      var review := Resena(nextId, publicacionId, caller, score, StoredComment(commentario));
      AppendKeepsOnePerAuthor(resenas, review);
      resenas := resenas + [review];
      nextId := nextId + 1;
      r := Ok(review);
    }

    /** `updateResena(id, caller, data)`: 404 when missing, 403 for anyone but the author;
        only the fields present in `data` change. */
    method UpdateResena(id: nat, caller: Email, score: Option<int>, commentario: Option<string>) returns (r: Result<Resena>)
      requires Valid()
      modifies this
      ensures Valid()
      ensures publications == old(publications) && users == old(users) && nextId == old(nextId)
      ensures var k := FindReview(old(resenas), id);
        if k.None? then r == Err(NotFound) && resenas == old(resenas)
        else
          var x := old(resenas)[k.value];
          if x.author != caller then r == Err(Forbidden) && resenas == old(resenas)
          else
            r.Ok? && resenas == old(resenas)[k.value := r.value] &&
            r.value.id == x.id && r.value.publicacionId == x.publicacionId && r.value.author == x.author &&
            r.value.score == score.GetOr(x.score) &&
            r.value.commentario == (if commentario.Some? then commentario else x.commentario)
    {
      var k := FindReview(resenas, id);
      if k.None? {
        return Err(NotFound);
      }
      var x := resenas[k.value];
      if x.author != caller {
        return Err(Forbidden);
      }
      if score.Some? {
        x := x.(score := score.value);
      }
      if commentario.Some? {
        x := x.(commentario := commentario);
      }
      UpdateKeepsOnePerAuthor(resenas, k.value, x);
      assert resenas[k.value] in resenas;
      resenas := resenas[k.value := x];
      r := Ok(x);
    }

    /** `deleteResena(id, caller)`: 404 when missing, 403 for anyone but the author;
        otherwise exactly that review is removed. */
    method DeleteResena(id: nat, caller: Email) returns (r: Result<Resena>)
      requires Valid()
      modifies this
      ensures Valid()
      ensures publications == old(publications) && users == old(users) && nextId == old(nextId)
      ensures var k := FindReview(old(resenas), id);
        if k.None? then r == Err(NotFound) && resenas == old(resenas)
        else if old(resenas)[k.value].author != caller then r == Err(Forbidden) && resenas == old(resenas)
        else r == Ok(old(resenas)[k.value]) && resenas == RemoveAt(old(resenas), k.value)
    {
      var k := FindReview(resenas, id);
      if k.None? {
        return Err(NotFound);
      }
      if resenas[k.value].author != caller {
        return Err(Forbidden);
      }
      r := Ok(resenas[k.value]);
      RemoveKeepsOnePerAuthor(resenas, k.value);
      resenas := RemoveAt(resenas, k.value);
    }

    /** `getResenasByPublicacion(id)`: 404 like `canAccessPublication`, else exactly the
        reviews of that publication, highest id first. */
    function GetResenasByPublicacion(publicacionId: nat): (r: Result<seq<Resena>>)
      reads this
      ensures r.Err? <==> CanAccessPublication(publicacionId).Err?
      ensures r.Err? ==> r.status == NotFound
      ensures r.Ok? ==> NonIncreasing(r.value, ReviewId)
      ensures r.Ok? ==> forall x :: multiset(r.value)[x] == if x.publicacionId == publicacionId then multiset(resenas)[x] else 0
    {
      var access := CanAccessPublication(publicacionId);
      if access.Err? then Err(access.status)
      else Ok(SortDesc(Filter(resenas, (x: Resena) => x.publicacionId == publicacionId), ReviewId))
    }
  }

  /** With one review per pair, a user's review of a publication is unique. */
  lemma ReviewOfPairUnique(rs: seq<Resena>, a: Resena, b: Resena)
    requires OnePerAuthor(rs) && a in rs && b in rs
    requires a.publicacionId == b.publicacionId && a.author == b.author
    ensures a == b
  {
    var i :| 0 <= i < |rs| && rs[i] == a;
    var j :| 0 <= j < |rs| && rs[j] == b;
    assert i == j;
  }
}
