/**
 * Saving the module settings on the admin page (`processPostIndexAction`
 * and `validate`): the required fields, the permission and the SCA
 * exemption amount are checked, each failure keyed in the controller's
 * error map; a clean form is stored, a failing one answered with the
 * watched errors as an HTML list. Messages are kept as their language
 * keys.
 */
module AdminSettings {
  import opened Php
  import opened Rows
  import opened OpenCart

  /** The error keys the answer lists, in the order it lists them (`$error_field_key_list`). */
  const ErrorFieldKeyList := ["warning", "username", "password", "transaction_type", "order_status",
    "order_async_status", "order_failure_status", "error_sca_exemption_amount"]

  const DirectModule := "emerchantpay_direct"

  /** `validateRequiredFields`: the form fields that must be non-empty and the error key each sets. */
  function RequiredFields(moduleName: string): (r: seq<(string, string)>)
    ensures |r| == if moduleName == DirectModule then 6 else 5
  {
    [(moduleName + "_username", "username"), (moduleName + "_password", "password"),
     (moduleName + "_transaction_type", "transaction_type"), (moduleName + "_order_status_id", "order_status"),
     (moduleName + "_order_failure_status_id", "order_failure_status")] +
    (if moduleName == DirectModule then [(moduleName + "_async_order_status_id", "order_async_status")] else [])
  }

  // ---------------------------------------------------------------------
  // (float) cast

  /** The text of a decimal number at the head of `s`: digits, then a point and digits. */
  function DecimalPrefix(s: string): (r: string)
  {
    var whole := LeadingDigits(s);
    var rest := s[|whole|..];
    if |rest| > 0 && rest[0] == '.' then whole + "." + LeadingDigits(rest[1..]) else whole
  }

  predicate HasNonzeroDigit(s: string)
  {
    exists k | 0 <= k < |s| :: '1' <= s[k] <= '9'
  }

  /**
   * `(float)$v < 0`: a number below zero, or a string whose leading
   * number has a minus sign and a non-zero digit (so "-0" and "abc" are
   * not below zero).
   */
  predicate FloatNegative(v: Value)
  {
    match v
    case Int(i) => i < 0
    case Str(s) =>
      var t := SkipIntSpace(s);
      |t| > 0 && t[0] == '-' && HasNonzeroDigit(DecimalPrefix(t[1..]))
    case _ => false
  }

  /** A negative fraction is below zero although its integer part is not. */
  lemma NegativeFraction()
    ensures FloatNegative(Str("-0.5"))
  {
    assert LeadingDigits("0.5") == "0";
    assert DecimalPrefix("0.5")[2] == '5';
  }

  /** Minus zero is not below zero. */
  lemma MinusZero()
    ensures !FloatNegative(Str("-0"))
  {
    assert LeadingDigits("0") == "0";
  }

  // ---------------------------------------------------------------------
  // the errors of a form

  /** The errors of the empty required fields. */
  function MissingErrors(post: Post, fields: seq<(string, string)>): map<string, string>
  {
    if fields == [] then map[]
    else
      var (field, key) := fields[|fields| - 1];
      var before := MissingErrors(post, fields[..|fields| - 1]);
      if !Truthy(PostValue(post, field)) then before[key := "error_" + key] else before
  }

  /** An error is recorded for a required field exactly when some field with its key is empty. */
  lemma {:induction false} MissingErrorsExact(post: Post, fields: seq<(string, string)>, key: string)
    ensures key in MissingErrors(post, fields) <==>
      exists k | 0 <= k < |fields| :: fields[k].1 == key && !Truthy(PostValue(post, fields[k].0))
  {
    if fields != [] {
      var init := fields[..|fields| - 1];
      MissingErrorsExact(post, init, key);
      if key in MissingErrors(post, init) {
        var k :| 0 <= k < |init| && init[k].1 == key && !Truthy(PostValue(post, init[k].0));
        assert fields[k] == init[k];
      }
      if exists k | 0 <= k < |fields| :: fields[k].1 == key && !Truthy(PostValue(post, fields[k].0)) {
        var k :| 0 <= k < |fields| && fields[k].1 == key && !Truthy(PostValue(post, fields[k].0));
        if k < |init| {
          assert init[k] == fields[k];
        }
      }
    }
  }

  /** Recording an error after earlier ones is recording it among them. */
  lemma MergeUpdate(a: map<string, string>, b: map<string, string>, k: string, v: string)
    ensures (a + b)[k := v] == a + b[k := v]
  {
  }

  /** The errors `validate` records for a form. */
  function ValidationErrors(moduleName: string, post: Post, permitted: bool): map<string, string>
  {
    var missing := MissingErrors(post, RequiredFields(moduleName));
    var withPermission := if !permitted then missing["warning" := "error_permission"] else missing;
    if FloatNegative(PostValue(post, moduleName + "_sca_exemption_amount"))
    then withPermission["error_sca_exemption_amount" := "error_sca_exemption_amount"]
    else withPermission
  }

  /**
   * A form passes exactly when the user may modify the module, every
   * required field is non-empty and the SCA exemption amount is not below
   * zero.
   */
  lemma ValidationPasses(moduleName: string, post: Post, permitted: bool)
    ensures ValidationErrors(moduleName, post, permitted) == map[] <==>
      permitted && !FloatNegative(PostValue(post, moduleName + "_sca_exemption_amount")) &&
      forall k | 0 <= k < |RequiredFields(moduleName)| :: Truthy(PostValue(post, RequiredFields(moduleName)[k].0))
  {
    var fields := RequiredFields(moduleName);
    var missing := MissingErrors(post, fields);
    var r := ValidationErrors(moduleName, post, permitted);
    if !permitted {
      assert "warning" in r;
    }
    if FloatNegative(PostValue(post, moduleName + "_sca_exemption_amount")) {
      assert "error_sca_exemption_amount" in r;
    }
    if missing == map[] {
      forall k | 0 <= k < |fields| ensures Truthy(PostValue(post, fields[k].0)) {
        MissingErrorsExact(post, fields, fields[k].1);
      }
    } else {
      var key :| key in missing;
      MissingErrorsExact(post, fields, key);
      assert key in r;
    }
  }

  /** Every key `validate` can record is one the answer watches. */
  lemma ValidationErrorsWatched(moduleName: string, post: Post, permitted: bool, key: string)
    requires key in ValidationErrors(moduleName, post, permitted)
    ensures key in ErrorFieldKeyList
  {
    var fields := RequiredFields(moduleName);
    if key in MissingErrors(post, fields) {
      MissingErrorsExact(post, fields, key);
      var k :| 0 <= k < |fields| && fields[k].1 == key && !Truthy(PostValue(post, fields[k].0));
    }
  }

  // ---------------------------------------------------------------------
  // the error list

  /** The keys of the error list: the watched keys that have an error, in watch order. */
  function ListedKeys(keys: seq<string>, error: map<string, string>): (r: seq<string>)
    ensures forall k | k in r :: k in keys && k in error
  {
    if keys == [] then []
    else ListedKeys(keys[..|keys| - 1], error) + (if keys[|keys| - 1] in error then [keys[|keys| - 1]] else [])
  }

  /** Every error under a watched key is listed. */
  lemma {:induction false} ListedKeysComplete(keys: seq<string>, error: map<string, string>, key: string)
    requires key in keys && key in error
    ensures key in ListedKeys(keys, error)
  {
    if keys[|keys| - 1] != key {
      assert key in keys[..|keys| - 1] by {
        var k :| 0 <= k < |keys| && keys[k] == key;
        assert keys[..|keys| - 1][k] == key;
      }
      ListedKeysComplete(keys[..|keys| - 1], error, key);
    }
  }

  /** The `<li>` items of the listed errors, in watch order. */
  function Items(keys: seq<string>, error: map<string, string>): string
  {
    if keys == [] then ""
    else
      var last := keys[|keys| - 1];
      Items(keys[..|keys| - 1], error) + (if last in error then "<li>" + error[last] + "</li>" else "")
  }

  /** Every error `validate` records appears in the answer's list. */
  lemma ValidationErrorsListed(moduleName: string, post: Post, permitted: bool, key: string)
    requires key in ValidationErrors(moduleName, post, permitted)
    ensures key in ListedKeys(ErrorFieldKeyList, ValidationErrors(moduleName, post, permitted))
  {
    ValidationErrorsWatched(moduleName, post, permitted, key);
    ListedKeysComplete(ErrorFieldKeyList, ValidationErrors(moduleName, post, permitted), key);
  }

  /** The answer to the settings POST. */
  datatype Answer = Answer(success: bool, text: string)

  class SettingsController {
    const moduleName: string
    /** `$this->error`: the error message by error key. */
    var error: map<string, string>
    /** The stored settings by setting code (`editSetting` replaces a code's settings). */
    var settings: map<string, map<string, Value>>
    var headers: seq<string>
    var output: seq<Answer>

    constructor(moduleName: string, settings: map<string, map<string, Value>>)
      ensures this.moduleName == moduleName && this.settings == settings
      ensures error == map[] && headers == [] && output == []
    {
      this.moduleName := moduleName;
      this.settings := settings;
      error := map[];
      headers := [];
      output := [];
    }

    /** `validateRequiredFields`: an error for each required field left empty. */
    method ValidateRequiredFields(post: Post)
      modifies this`error
      ensures error == old(error) + MissingErrors(post, RequiredFields(moduleName))
    {
      CheckFields(post, RequiredFields(moduleName));
    }

    /** The loop of `validateRequiredFields` over the required fields `fields`. */
    method CheckFields(post: Post, fields: seq<(string, string)>)
      modifies this`error
      ensures error == old(error) + MissingErrors(post, fields)
    {
      var i := 0;
      while i < |fields|
        invariant 0 <= i <= |fields|
        invariant error == old(error) + MissingErrors(post, fields[..i])
      {
        assert fields[..i + 1][..i] == fields[..i];
        var (field, key) := fields[i];
        if !Truthy(PostValue(post, field)) {
          MergeUpdate(old(error), MissingErrors(post, fields[..i]), key, "error_" + key);
          error := error[key := "error_" + key];
        }
        i := i + 1;
      }
      assert fields[..i] == fields;
    }

    /** `validate`: record the form's errors; the form passes when there are none at all. */
    method Validate(post: Post, permitted: bool) returns (ok: bool)
      modifies this`error
      ensures error == old(error) + ValidationErrors(moduleName, post, permitted)
      ensures ok <==> error == map[]
    {
      ValidateRequiredFields(post);
      var missing := MissingErrors(post, RequiredFields(moduleName));
      if !permitted {
        MergeUpdate(old(error), missing, "warning", "error_permission");
        error := error["warning" := "error_permission"];
      }
      ghost var withPermission := if !permitted then missing["warning" := "error_permission"] else missing;
      assert error == old(error) + withPermission;
      if FloatNegative(PostValue(post, moduleName + "_sca_exemption_amount")) {
        MergeUpdate(old(error), withPermission, "error_sca_exemption_amount", "error_sca_exemption_amount");
        error := error["error_sca_exemption_amount" := "error_sca_exemption_amount"];
      }
      ok := error == map[];
    }

    /** The error list of the answer: one `<li>` per watched error, in watch order, inside `<ul>`. */
    method ErrorListMessage() returns (message: string)
      ensures message == "<ul>" + Items(ErrorFieldKeyList, error) + "</ul>"
    {
      var keys := ErrorFieldKeyList;
      var items := "";
      var i := 0;
      while i < |keys|
        invariant 0 <= i <= |keys|
        invariant items == Items(keys[..i], error)
      {
        assert keys[..i + 1][..i] == keys[..i];
        if keys[i] in error {
          items := items + "<li>" + error[keys[i]] + "</li>";
        }
        i := i + 1;
      }
      assert keys[..i] == keys;
      message := "<ul>" + items + "</ul>";
    }

    /**
     * `processPostIndexAction`: a form that passes is stored under the
     * module's code, and its status and sort order again under the
     * `payment_` code; the answer is success, or the error list.
     */
    method ProcessPostIndexAction(post: Post, permitted: bool)
      modifies this`error, this`settings, this`headers, this`output
      ensures error == old(error) + ValidationErrors(moduleName, post, permitted)
      ensures error == map[] ==>
        settings == old(settings)[moduleName := post][
          "payment_" + moduleName := map["payment_" + moduleName + "_status" := PostValue(post, moduleName + "_status"),
                                         "payment_" + moduleName + "_sort_order" := PostValue(post, moduleName + "_sort_order")]] &&
        output == old(output) + [Answer(true, "text_success")]
      ensures error != map[] ==>
        settings == old(settings) &&
        output == old(output) + [Answer(false, "<ul>" + Items(ErrorFieldKeyList, error) + "</ul>")]
      ensures headers == old(headers) + [ContentTypeJson]
    {
      var ok := Validate(post, permitted);
      var json;
      if ok {
        settings := settings[moduleName := post];
        var code := "payment_" + moduleName;
        settings := settings[code := map[code + "_status" := PostValue(post, moduleName + "_status"),
                                         code + "_sort_order" := PostValue(post, moduleName + "_sort_order")]];
        json := Answer(true, "text_success");
      } else {
        var message := ErrorListMessage();
        json := Answer(false, message);
      }
      headers := headers + [ContentTypeJson];
      output := output + [json];
    }
  }
}
