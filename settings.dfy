/**
 * The administrator's settings form: switching the validity flag of one of
 * the user's saved idempotency keys on or off.
 */
module Settings {
  import opened Wrappers
  import opened Web
  import opened IdempotencyKeys

  const SettingsPath: string := "/admin/settings"
  const KeyChangedMessage: string := "The key state has been changed."
  const KeyChangeFailedMessage: string := "Failed to change the key state."
  const NoMatchingKeyMessage: string := "No matching key found."

  /** The fields of the submitted form, as strings. */
  datatype FormData = FormData(idempotencyKey: string, validity: string)

  /** The primary key of the idempotency table: the owning user and the key. */
  datatype RowKey = RowKey(userId: Uuid, idempotencyKey: string)

  /** The response saved for a key; its content plays no role in this form. */
  datatype SavedResponse = SavedResponse(statusCode: nat, body: seq<bv8>)

  /** The rest of a row of the idempotency table. */
  datatype IdempotencyRecord = IdempotencyRecord(savedResponse: SavedResponse, validity: bool)

  type Rows = map<RowKey, IdempotencyRecord>

  /** The validity flag the form's `validity` field selects: "1" is valid, anything else is not. */
  function KeyValidity(validity: string): (v: bool)
    ensures v <==> validity == "1"
  {
    match validity
    case "1" => true
    case "0" => false
    case _ => false
  }

  /** The `WHERE user_id = $1 AND idempotency_key = $2` condition. */
  predicate Matches(k: RowKey, userId: Uuid, key: string) {
    k.userId == userId && k.idempotencyKey == key
  }

  /** The rows that condition selects. */
  function MatchingRows(rows: Rows, userId: Uuid, key: string): set<RowKey> {
    set k | k in rows && Matches(k, userId, key)
  }

  /** The table after `UPDATE idempotency SET validity = $3` on the selected rows. */
  function SetValidity(rows: Rows, userId: Uuid, key: string, validity: bool): (r: Rows)
    ensures r.Keys == rows.Keys
    ensures forall k | k in rows && Matches(k, userId, key) ::
      r[k].validity == validity && r[k].savedResponse == rows[k].savedResponse
    ensures forall k | k in rows && !Matches(k, userId, key) :: r[k] == rows[k]
  {
    map k | k in rows :: if Matches(k, userId, key) then rows[k].(validity := validity) else rows[k]
  }

  /** Since (user, key) is the primary key, the update touches one row when that key is stored and none otherwise. */
  lemma {:induction false} AffectedRowCount(rows: Rows, userId: Uuid, key: string)
    ensures |MatchingRows(rows, userId, key)| == if RowKey(userId, key) in rows then 1 else 0
  {
    if RowKey(userId, key) in rows {
      assert MatchingRows(rows, userId, key) == {RowKey(userId, key)};
    } else {
      assert MatchingRows(rows, userId, key) == {};
    }
  }

  /**
   * The update changes only the validity of the matching row: every other
   * row, and the saved response of the matching one, stay as they were, and
   * no row appears or disappears.
   */
  lemma UpdateOnlyTouchesMatchingRow(rows: Rows, userId: Uuid, key: string, validity: bool)
    ensures SetValidity(rows, userId, key, validity).Keys == rows.Keys
    ensures RowKey(userId, key) in rows ==>
      SetValidity(rows, userId, key, validity) == rows[RowKey(userId, key) := rows[RowKey(userId, key)].(validity := validity)]
    ensures RowKey(userId, key) !in rows ==> SetValidity(rows, userId, key, validity) == rows
  {
  }

  /** The same key string stored under another user is never affected. */
  lemma OtherUsersUntouched(rows: Rows, userId: Uuid, key: string, validity: bool, other: Uuid)
    requires other != userId
    ensures forall k | k in rows && k.userId == other :: SetValidity(rows, userId, key, validity)[k] == rows[k]
  {
  }

  /**
   * Marking a stored key valid with "1" and then invalid with "0" succeeds
   * both times and ends with the key invalid and everything else unchanged.
   */
  lemma {:induction false} ValidateThenInvalidate(rows: Rows, userId: Uuid, key: string)
    requires RowKey(userId, key) in rows
    ensures var once := SetValidity(rows, userId, key, KeyValidity("1"));
      && |MatchingRows(rows, userId, key)| > 0
      && RowKey(userId, key) in once && once[RowKey(userId, key)].validity
      && |MatchingRows(once, userId, key)| > 0
      && SetValidity(once, userId, key, KeyValidity("0"))
         == rows[RowKey(userId, key) := rows[RowKey(userId, key)].(validity := false)]
  {
    var rk := RowKey(userId, key);
    var once := SetValidity(rows, userId, key, KeyValidity("1"));
    AffectedRowCount(rows, userId, key);
    UpdateOnlyTouchesMatchingRow(rows, userId, key, true);
    AffectedRowCount(once, userId, key);
    UpdateOnlyTouchesMatchingRow(once, userId, key, false);
    assert once[rk := once[rk].(validity := false)] == rows[rk := rows[rk].(validity := false)];
  }

  /** The idempotency table, updated in place by the settings form. */
  class IdempotencyTable {
    var rows: Rows

    constructor (rows: Rows)
      ensures this.rows == rows
    {
      this.rows := rows;
    }

    /**
     * Sets the validity of the user's row for `key` and reports success
     * exactly when a row was affected.
     */
    method KeyState(userId: Uuid, key: IdempotencyKey, validity: string) returns (result: Outcome<string>)
      modifies this
      ensures rows == SetValidity(old(rows), userId, AsRef(key), validity == "1")
      ensures result == if RowKey(userId, AsRef(key)) in old(rows) then Pass else Fail(NoMatchingKeyMessage)
    {
      var keyValidity := KeyValidity(validity);
      var changedKey := |MatchingRows(rows, userId, AsRef(key))|;
      AffectedRowCount(rows, userId, AsRef(key));
      rows := SetValidity(rows, userId, AsRef(key), keyValidity);
      if changedKey > 0 {
        result := Pass;
      } else {
        result := Fail(NoMatchingKeyMessage);
      }
    }

    /**
     * The form handler: an empty key is a 400 that leaves the table alone;
     * otherwise the update runs, its outcome is flashed, and the response is
     * a redirect back to the settings page either way.
     */
    method ChangeKeyState(userId: Uuid, form: FormData) returns (response: Result<HttpResponse, HttpError>, flash: FlashMessage)
      modifies this
      ensures form.idempotencyKey == [] ==>
        && rows == old(rows)
        && response == Err(E400(EmptyKeyMessage))
        && flash == FlashMessage(Error, EmptyKeyMessage)
      ensures form.idempotencyKey != [] ==>
        && rows == SetValidity(old(rows), userId, form.idempotencyKey, form.validity == "1")
        && response == Ok(SeeOther(SettingsPath))
        && flash == if RowKey(userId, form.idempotencyKey) in old(rows)
                    then FlashMessage(Info, KeyChangedMessage)
                    else FlashMessage(Error, KeyChangeFailedMessage)
    {
      var parsed := TryFrom(form.idempotencyKey);
      if parsed.Err? {
        flash := FlashMessage(Error, parsed.error);
        response := Err(E400(parsed.error));
        return;
      }
      var outcome := KeyState(userId, parsed.value, form.validity);
      match outcome {
        case Pass => flash := FlashMessage(Info, KeyChangedMessage);
        case Fail(_) => flash := FlashMessage(Error, KeyChangeFailedMessage);
      }
      response := Ok(SeeOther(SettingsPath));
    }
  }
}
