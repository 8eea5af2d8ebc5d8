/** The `mapFormValuesToPayload` exported by `UserEntity.ts`: user form values as a
    `UserPayload`. No screen calls it; the users screen builds its request body with a mapper
    of its own, which is not part of this model. Text fields are trimmed, the role id is converted with `Number`, the flags with
    `Boolean`, and the role name is copied. */
module UserEntity {
  import opened Js

  /** The form values the mapper reads. Every field is whatever the form held, so any
      JavaScript value; `password` is among them but never read. */
  datatype UserFormValues = UserFormValues(
    username: JsValue, nama: JsValue, roleId: JsValue, rolePortal: JsValue,
    isUserPpob: JsValue, isActive: JsValue, isUserTimtagih: JsValue,
    jabatan: JsValue, noHp: JsValue, password: JsValue)

  /** `UserPayload` as the mapper builds it: no `password`, and `noHp` always a string. */
  datatype UserPayload = UserPayload(
    username: string, nama: string, roleId: JsNumber, rolePortal: JsValue,
    isUserPpob: bool, isActive: bool, isUserTimtagih: bool,
    jabatan: string, noHp: string)

  /** The payload, or the `TypeError` the first `.trim()` on a value that is not a string
      throws, naming that field. */
  datatype Mapped = Payload(payload: UserPayload) | TypeError(field: string)

  /** The fields `.trim()` is called on, in evaluation order. */
  const TrimmedFields: seq<string> := ["username", "nama", "jabatan", "noHp"]

  /** `mapFormValuesToPayload(values)`. */
  function MapFormValuesToPayload(values: UserFormValues): (r: Mapped)
    ensures r.Payload? <==> values.username.Str? && values.nama.Str? && values.jabatan.Str? && values.noHp.Str?
    ensures r.TypeError? ==> r.field in TrimmedFields
    ensures r.Payload? ==>
      && r.payload.username == Trim(values.username.s)
      && r.payload.nama == Trim(values.nama.s)
      && r.payload.jabatan == Trim(values.jabatan.s)
      && r.payload.noHp == Trim(values.noHp.s)
      && r.payload.roleId == ToNumber(values.roleId)
      && r.payload.rolePortal == values.rolePortal
      && r.payload.isUserPpob == Truthy(values.isUserPpob)
      && r.payload.isActive == Truthy(values.isActive)
      && r.payload.isUserTimtagih == Truthy(values.isUserTimtagih)
  {
    if !values.username.Str? then TypeError("username")
    else if !values.nama.Str? then TypeError("nama")
    else if !values.jabatan.Str? then TypeError("jabatan")
    else if !values.noHp.Str? then TypeError("noHp")
    else Payload(UserPayload(
      Trim(values.username.s), Trim(values.nama.s), ToNumber(values.roleId), values.rolePortal,
      Truthy(values.isUserPpob), Truthy(values.isActive), Truthy(values.isUserTimtagih),
      Trim(values.jabatan.s), Trim(values.noHp.s)))
  }

  /** A payload put back into the form, as the edit dialog would. */
  function AsFormValues(p: UserPayload, password: JsValue): UserFormValues
    requires p.roleId.Integer?
  {
    UserFormValues(Str(p.username), Str(p.nama), Num(p.roleId.value), p.rolePortal,
      Bool(p.isUserPpob), Bool(p.isActive), Bool(p.isUserTimtagih), Str(p.jabatan), Str(p.noHp), password)
  }

  // ---------------------------------------------------------------------------
  // Properties

  /** Mapping is idempotent: a payload put back into the form maps to itself. */
  lemma MapIsIdempotent(values: UserFormValues, password: JsValue)
    requires MapFormValuesToPayload(values).Payload?
    requires MapFormValuesToPayload(values).payload.roleId.Integer?
    ensures var p := MapFormValuesToPayload(values).payload;
      MapFormValuesToPayload(AsFormValues(p, password)) == Payload(p)
  {
    TrimIdempotent(values.username.s);
    TrimIdempotent(values.nama.s);
    TrimIdempotent(values.jabatan.s);
    TrimIdempotent(values.noHp.s);
  }

  /** The password never reaches the payload: the mapping does not depend on it. */
  lemma PasswordIgnored(values: UserFormValues, password: JsValue)
    ensures MapFormValuesToPayload(values.(password := password)) == MapFormValuesToPayload(values)
  {
  }

  /** A `null` phone number, which the `UserItem` type allows, makes the mapper throw. */
  lemma NullPhoneThrows(values: UserFormValues)
    requires values.username.Str? && values.nama.Str? && values.jabatan.Str?
    requires values.noHp == Null
    ensures MapFormValuesToPayload(values) == TypeError("noHp")
  {
  }

  /** A role id held as the text of an integer reads as that integer. */
  lemma RoleIdFromText(values: UserFormValues, n: int)
    requires values.username.Str? && values.nama.Str? && values.jabatan.Str? && values.noHp.Str?
    requires values.roleId == Str(IntToDecimal(n))
    ensures MapFormValuesToPayload(values).Payload?
    ensures MapFormValuesToPayload(values).payload.roleId == Integer(n)
  {
    DecimalStringToNumber(n);
  }
}
