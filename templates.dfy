/**
 * Creating and deleting game templates (api/src/handler/template.rs).
 */
module Templates {
  import opened Types
  import opened Errors
  import opened Text
  import opened Seqs
  import opened Body
  import opened Tables

  /** The most bytes a title or a caption may take. */
  const MaxTextBytes: nat := 128
  /** The fewest fields a template may have. */
  const MinFields: nat := 9
  const TemplateLanguage: string := "ger"

  const TitleMessage: string := "Title must have at least one and at most 128 characters."
  const TooFewFieldsMessage: string := "Templates must have at lest 9 fields."
  const CaptionMessage: string := "Field captions must have at least one and at most 128 characters."
  const CreatedMessage: string := "Template successfully creates."

  /** A title or caption the handler accepts: not empty and at most 128 bytes in UTF-8. */
  predicate ValidText(s: string)
  {
    |s| > 0 && Utf8Length(s) <= MaxTextBytes
  }

  /** For ASCII text the byte limit is a character limit. */
  lemma ValidAsciiText(s: string)
    requires forall i :: 0 <= i < |s| ==> s[i] < 128 as char
    ensures ValidText(s) <==> 1 <= |s| <= MaxTextBytes
  {
    Utf8LengthAscii(s);
  }

  /** Text outside the Basic Multilingual Plane takes four bytes per character. */
  lemma {:induction false} Utf8LengthWide(s: string)
    requires forall i :: 0 <= i < |s| ==> s[i] as int >= 0x1_0000
    ensures Utf8Length(s) == 4 * |s|
  {
    if |s| > 0 {
      Utf8LengthWide(s[1..]);
    }
  }

  /** A caption of 33 four-byte characters is too long although it has only 33 characters. */
  lemma LimitCountsBytes()
    ensures !ValidText(seq(33, i => '\U{1F600}'))
  {
    Utf8LengthWide(seq(33, i => '\U{1F600}'));
  }

  /** Every caption is acceptable. */
  predicate AllValid(captions: seq<string>)
  {
    forall i :: 0 <= i < |captions| ==> ValidText(captions[i])
  }

  /** The first loop over the captions: stops at the first invalid one. */
  method CheckCaptions(captions: seq<string>) returns (ok: bool)
    ensures ok <==> AllValid(captions)
  {
    for i := 0 to |captions|
      invariant forall j :: 0 <= j < i ==> ValidText(captions[j])
    {
      if |captions[i]| == 0 || Utf8Length(captions[i]) > MaxTextBytes {
        return false;
      }
    }
    return true;
  }

  /** The field template rows inserted for the captions, numbered from firstId. */
  function CaptionRows(firstId: Uuid, gameTemplateId: Uuid, captions: seq<string>): (r: seq<FieldTemplateRow>)
    ensures |r| == |captions|
  {
    seq(|captions|, i requires 0 <= i < |captions| => FieldTemplateRow(firstId + i, gameTemplateId, captions[i]))
  }

  /** The second loop over the captions: one field template per caption, in order. */
  method InsertCaptions(db: Database, gameTemplateId: Uuid, captions: seq<string>)
    modifies db
    ensures db.State() == old(db.State()).(
      fieldTemplates := old(db.fieldTemplates) + CaptionRows(old(db.nextId), gameTemplateId, captions),
      nextId := old(db.nextId) + |captions|)
  {
    for i := 0 to |captions|
      invariant db.State() == old(db.State()).(
        fieldTemplates := old(db.fieldTemplates) + CaptionRows(old(db.nextId), gameTemplateId, captions[..i]),
        nextId := old(db.nextId) + i)
    {
      db.InsertFieldTemplate(gameTemplateId, captions[i]);
      assert CaptionRows(old(db.nextId), gameTemplateId, captions[..i + 1])
        == CaptionRows(old(db.nextId), gameTemplateId, captions[..i])
           + [FieldTemplateRow(old(db.nextId) + i, gameTemplateId, captions[i])];
    }
    assert captions[..|captions|] == captions;
  }

  /** The state after the template row is inserted. */
  function WithTemplate(s: Snapshot, title: string, userId: Uuid): Snapshot
  {
    s.(gameTemplates := s.gameTemplates + [GameTemplateRow(s.nextId, title, TemplateLanguage, userId, false)],
       nextId := s.nextId + 1)
  }

  /**
   * `handle_create_template`: checks the title, inserts the template row,
   * then checks the field count and the captions (a failure there leaves
   * the template row in place), then inserts the field templates.
   */
  method CreateTemplate(db: Database, userId: Uuid, payload: TemplateIn) returns (r: Result<string>)
    modifies db
    ensures !ValidText(payload.title) ==> r == Err(BadRequest(TitleMessage)) && db.State() == old(db.State())
    ensures ValidText(payload.title) && |payload.fields| < MinFields ==>
      r == Err(BadRequest(TooFewFieldsMessage)) && db.State() == WithTemplate(old(db.State()), payload.title, userId)
    ensures ValidText(payload.title) && |payload.fields| >= MinFields && !AllValid(payload.fields) ==>
      r == Err(BadRequest(CaptionMessage)) && db.State() == WithTemplate(old(db.State()), payload.title, userId)
    ensures ValidText(payload.title) && |payload.fields| >= MinFields && AllValid(payload.fields) ==>
      var created := WithTemplate(old(db.State()), payload.title, userId);
      r == Ok(CreatedMessage)
      && db.State() == created.(
        fieldTemplates := created.fieldTemplates + CaptionRows(created.nextId, old(db.nextId), payload.fields),
        nextId := created.nextId + |payload.fields|)
  {
    if |payload.title| == 0 || Utf8Length(payload.title) > MaxTextBytes {
      return Err(BadRequest(TitleMessage));
    }
    var id := db.InsertGameTemplate(payload.title, TemplateLanguage, userId);
    if |payload.fields| < MinFields {
      return Err(BadRequest(TooFewFieldsMessage));
    }
    var ok := CheckCaptions(payload.fields);
    if !ok {
      return Err(BadRequest(CaptionMessage));
    }
    InsertCaptions(db, id, payload.fields);
    return Ok(CreatedMessage);
  }

  /** The captions of a game template's field templates, in table order. */
  function CaptionsOf(templates: seq<FieldTemplateRow>, gameTemplateId: Uuid): seq<string>
  {
    Map(Filter(templates, (ft: FieldTemplateRow) => ft.gameTemplateId == gameTemplateId), (ft: FieldTemplateRow) => ft.caption)
  }

  /**
   * A new template's field templates are exactly the payload's captions,
   * in payload order, provided no earlier field template used its id.
   */
  lemma CreatedCaptionsInOrder(templates: seq<FieldTemplateRow>, firstId: Uuid, gameTemplateId: Uuid, captions: seq<string>)
    requires forall ft :: ft in templates ==> ft.gameTemplateId != gameTemplateId
    ensures CaptionsOf(templates + CaptionRows(firstId, gameTemplateId, captions), gameTemplateId) == captions
  {
    var keep := (ft: FieldTemplateRow) => ft.gameTemplateId == gameTemplateId;
    var rows := CaptionRows(firstId, gameTemplateId, captions);
    FilterAppend(templates, rows, keep);
    FilterNone(templates, keep);
    FilterAll(rows, keep);
    assert [] + rows == rows;
  }

  // ---------------------------------------------------------------------
  // Deleting
  // ---------------------------------------------------------------------

  /** The tables after a template and everything played on it are deleted, in the handler's order. */
  function Cascaded(s: Snapshot, gameTemplateId: Uuid): Snapshot
  {
    var ids := GameIdsIn(s.games, gameTemplateId);
    s.(fields := FieldsOutside(s.fields, ids, None),
       players := PlayersOutside(s.players, ids, None),
       games := GamesWithoutIds(s.games, ids),
       fieldTemplates := FieldTemplatesNotOf(s.fieldTemplates, gameTemplateId),
       gameTemplates := GameTemplatesWithoutId(s.gameTemplates, gameTemplateId))
  }

  /**
   * `handle_delete_template`: only the creator may delete; then the
   * fields, players and games of the template's games go, then its field
   * templates and the template itself.
   */
  method DeleteTemplate(db: Database, userId: Uuid, gameTemplateId: Uuid) returns (r: Result<()>)
    modifies db
    ensures old(db.OwnedTemplate(gameTemplateId, userId)).None? ==> r == Err(NotFound) && db.State() == old(db.State())
    ensures old(db.OwnedTemplate(gameTemplateId, userId)).Some? ==>
      r == Ok(()) && db.State() == Cascaded(old(db.State()), gameTemplateId)
  {
    var template := db.OwnedTemplate(gameTemplateId, userId);
    if template.None? {
      return Err(FromSqlx(RowNotFound));
    }
    var id := template.value.id;
    var gameIds := db.GameIdsOf(id);
    db.DeleteFieldsIn(gameIds, None);
    db.DeletePlayersIn(gameIds, None);
    db.DeleteGamesWithIds(gameIds);
    db.DeleteFieldTemplatesOf(id);
    db.DeleteGameTemplate(id);
    return Ok(());
  }

  /** After a delete nothing of the template remains: no row names it or one of its games. */
  lemma CascadeLeavesNothing(s: Snapshot, gameTemplateId: Uuid)
    ensures var after := Cascaded(s, gameTemplateId);
      var ids := GameIdsIn(s.games, gameTemplateId);
      (forall g :: g in after.games ==> g.gameTemplateId != gameTemplateId)
      && (forall p :: p in after.players ==> p.gameId !in ids)
      && (forall f :: f in after.fields ==> f.gameId !in ids)
      && (forall ft :: ft in after.fieldTemplates ==> ft.gameTemplateId != gameTemplateId)
      && (forall t :: t in after.gameTemplates ==> t.id != gameTemplateId)
  {
  }

  /** A delete keeps every row that belongs to another template and its games. */
  lemma CascadeKeepsOthers(s: Snapshot, gameTemplateId: Uuid)
    ensures var after := Cascaded(s, gameTemplateId);
      var ids := GameIdsIn(s.games, gameTemplateId);
      (forall g :: g in s.games && g.id !in ids ==> g in after.games)
      && (forall p :: p in s.players && p.gameId !in ids ==> p in after.players)
      && (forall f :: f in s.fields && f.gameId !in ids ==> f in after.fields)
      && (forall ft :: ft in s.fieldTemplates && ft.gameTemplateId != gameTemplateId ==> ft in after.fieldTemplates)
      && (forall t :: t in s.gameTemplates && t.id != gameTemplateId ==> t in after.gameTemplates)
  {
  }
}
