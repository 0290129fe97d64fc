/**
 * The attributes service: the goods declaration and the responsible person of a GAR read into
 * the form (getAttributes), and the body posted from the form (postAttributes).
 */
module AttributesService {
  import opened Common

  /**
   * A field of the goods / responsible person form: egar-cta-declaration,
   * egar-goods-declaration, egar-person-responsible, egar-person-responsible-name and
   * egar-person-responsible-number.
   */
  datatype AttributeField = CtaDeclaration | GoodsDeclaration | Responsible | ResponsibleName | ResponsibleNumber

  /** The responsible person the API returns. */
  datatype ApiResponsible = ApiResponsible(rtype: Option<string>, name: Option<string>, contactNumber: Option<string>)

  /** The attributes the API returns; hazardous may be left out, null or a boolean. */
  datatype ApiAttributes = ApiAttributes(hazardous: Slot<bool>, responsiblePerson: Option<ApiResponsible>)

  /** What the attributes request settles with: the response's `attributes`, or a rejection. */
  datatype AttributesReply = Received(attributes: Option<ApiAttributes>) | Rejected(reason: string)

  /** The reason a property read on undefined is rejected with. */
  const TypeError := "TypeError"

  /**
   * The form values getAttributes resolves with, before the falsy ones are dropped: the
   * declaration as text unless hazardous is null, and for a responsible person its type in lower
   * case (null without a type), its name and its contact number.
   */
  function Entries(a: ApiAttributes): map<AttributeField, Option<string>>
    requires !a.hazardous.Absent?
  {
    var goods := if a.hazardous.Val? then map[GoodsDeclaration := Some(BoolString(a.hazardous.v))] else map[];
    if a.responsiblePerson.None? then goods
    else
      var p := a.responsiblePerson.value;
      goods[Responsible := if Truthy(p.rtype) then Some(ToLower(p.rtype.value)) else None]
           [ResponsibleName := p.name][ResponsibleNumber := p.contactNumber]
  }

  /** `_.pickBy(values, v => !!v)`: the entries that are set and not empty. */
  function PickSet(m: map<AttributeField, Option<string>>): (r: map<AttributeField, string>)
    ensures forall k :: k in r <==> k in m && Truthy(m[k])
    ensures forall k :: k in r ==> Some(r[k]) == m[k]
  {
    map k | k in m && Truthy(m[k]) :: m[k].value
  }

  /**
   * The outcome of getAttributes: a failed request, a response without attributes and hazardous
   * left out (toString on undefined) all reject; otherwise the set values. The CTA declaration is
   * never read back.
   */
  function AttributesOf(reply: AttributesReply): (r: Outcome<map<AttributeField, string>>)
    ensures reply.Rejected? ==> r == Thrown(reply.reason)
    ensures reply.Received? && (reply.attributes.None? || reply.attributes.value.hazardous.Absent?) ==> r == Thrown(TypeError)
    ensures r.Done? ==> CtaDeclaration !in r.value
    ensures r.Done? ==> (GoodsDeclaration in r.value <==> reply.attributes.value.hazardous.Val?)
    ensures r.Done? && GoodsDeclaration in r.value ==>
      r.value[GoodsDeclaration] == BoolString(reply.attributes.value.hazardous.v)
    ensures r.Done? && (Responsible in r.value || ResponsibleName in r.value || ResponsibleNumber in r.value) ==>
      reply.attributes.value.responsiblePerson.Some?
    ensures r.Done? && Responsible in r.value ==>
      && Truthy(reply.attributes.value.responsiblePerson.value.rtype)
      && r.value[Responsible] == ToLower(reply.attributes.value.responsiblePerson.value.rtype.value)
    ensures r.Done? && ResponsibleName in r.value ==>
      Some(r.value[ResponsibleName]) == reply.attributes.value.responsiblePerson.value.name
    ensures r.Done? && ResponsibleNumber in r.value ==>
      Some(r.value[ResponsibleNumber]) == reply.attributes.value.responsiblePerson.value.contactNumber
  {
    match reply
    case Rejected(reason) => Thrown(reason)
    case Received(attributes) =>
      if attributes.None? || attributes.value.hazardous.Absent? then Thrown(TypeError)
      else Done(PickSet(Entries(attributes.value)))
  }

  /** getAttributes: fills the form values one after another, as AttributesOf describes. */
  method GetAttributes(reply: AttributesReply) returns (r: Outcome<map<AttributeField, string>>)
    ensures r == AttributesOf(reply)
  {
    if reply.Rejected? {
      return Thrown(reply.reason);
    }
    if reply.attributes.None? || reply.attributes.value.hazardous.Absent? {
      return Thrown(TypeError);
    }
    var attributes := reply.attributes.value;
    var formValues: map<AttributeField, Option<string>> := map[];
    if attributes.hazardous.Val? {
      formValues := formValues[GoodsDeclaration := Some(BoolString(attributes.hazardous.v))];
    }
    if attributes.responsiblePerson.Some? {
      var responsible := attributes.responsiblePerson.value;
      formValues := formValues[Responsible := if Truthy(responsible.rtype) then Some(ToLower(responsible.rtype.value)) else None];
      formValues := formValues[ResponsibleName := responsible.name];
      formValues := formValues[ResponsibleNumber := responsible.contactNumber];
    }
    r := Done(PickSet(formValues));
  }

  /** The responsible person posted; name and contact number are nil when left out. */
  datatype ResponsibleBody = ResponsibleBody(rtype: string, name: Option<string>, contactNumber: Option<string>)

  /** The body posted for the attributes; a nil field is left out. */
  datatype AttributesBody = AttributesBody(
    cta: Option<string>, hazardous: Option<string>, responsiblePerson: Option<ResponsibleBody>)

  /**
   * postAttributes's body for the merged form values: the CTA and goods declarations when set
   * and not empty; a responsible person when its type is set and not empty, with the name and
   * contact number only for the type 'other'.
   */
  function BodyOf(merged: map<AttributeField, string>): (b: AttributesBody)
    ensures b.cta.Some? <==> Truthy(Lookup(merged, CtaDeclaration))
    ensures b.cta.Some? ==> b.cta.value == merged[CtaDeclaration]
    ensures b.hazardous.Some? <==> Truthy(Lookup(merged, GoodsDeclaration))
    ensures b.hazardous.Some? ==> b.hazardous.value == merged[GoodsDeclaration]
    ensures b.responsiblePerson.Some? <==> Truthy(Lookup(merged, Responsible))
    ensures b.responsiblePerson.Some? ==> b.responsiblePerson.value.rtype == merged[Responsible]
    ensures (b.responsiblePerson.Some?
             && (b.responsiblePerson.value.name.Some? || b.responsiblePerson.value.contactNumber.Some?))
            ==> merged[Responsible] == "other"
    ensures b.responsiblePerson.Some? && merged[Responsible] == "other" ==>
      b.responsiblePerson.value.name == Lookup(merged, ResponsibleName)
      && b.responsiblePerson.value.contactNumber == Lookup(merged, ResponsibleNumber)
  {
    var responsible := Lookup(merged, Responsible);
    AttributesBody(
      if Truthy(Lookup(merged, CtaDeclaration)) then Lookup(merged, CtaDeclaration) else None,
      if Truthy(Lookup(merged, GoodsDeclaration)) then Lookup(merged, GoodsDeclaration) else None,
      if !Truthy(responsible) then None
      else if responsible.value == "other" then
        Some(ResponsibleBody(responsible.value, Lookup(merged, ResponsibleName), Lookup(merged, ResponsibleNumber)))
      else Some(ResponsibleBody(responsible.value, None, None)))
  }

  /**
   * postAttributes: merges the form into the GAR's attributes in place (the form's values win),
   * builds the body field by field, and resolves with the attributes the API returns, or with
   * nothing when the request fails.
   */
  method PostAttributes(attributes: FormObject<AttributeField>, form: map<AttributeField, string>, reply: AttributesReply)
    returns (body: AttributesBody, result: Option<ApiAttributes>)
    modifies attributes
    ensures attributes.values == old(attributes.values) + form
    ensures body == BodyOf(old(attributes.values) + form)
    ensures reply.Rejected? ==> result.None?
    ensures reply.Received? ==> result == reply.attributes
  {
    attributes.MergeWith(form);
    assert attributes.values == old(attributes.values) + form;
    var merged := attributes.values;
    body := AttributesBody(None, None, None);
    if CtaDeclaration in merged && merged[CtaDeclaration] != "" {
      body := body.(cta := Some(merged[CtaDeclaration]));
    }
    if GoodsDeclaration in merged && merged[GoodsDeclaration] != "" {
      body := body.(hazardous := Some(merged[GoodsDeclaration]));
    }
    if Responsible in merged && merged[Responsible] != "" {
      var responsible := ResponsibleBody(merged[Responsible], None, None);
      if merged[Responsible] == "other" {
        responsible := responsible.(name := Lookup(merged, ResponsibleName));
        responsible := responsible.(contactNumber := Lookup(merged, ResponsibleNumber));
      }
      body := body.(responsiblePerson := Some(responsible));
    }
    result := if reply.Received? then reply.attributes else None;
  }

  /**
   * The attributes the workflow API keeps for a posted body: hazardous read as a boolean from
   * 'true' or 'false' (null otherwise), and the responsible person as sent.
   */
  function Stored(body: AttributesBody): ApiAttributes
  {
    ApiAttributes(
      if body.hazardous == Some("true") then Val(true) else if body.hazardous == Some("false") then Val(false) else Null,
      if body.responsiblePerson.None? then None
      else
        var p := body.responsiblePerson.value;
        Some(ApiResponsible(Some(p.rtype), p.name, p.contactNumber)))
  }

  /**
   * Round trip: posting the form and reading the attributes back gives the goods declaration and
   * the responsible person's type as they were (types in lower case), the name and number only
   * for the type 'other', and never the CTA declaration.
   */
  lemma PostThenGet(merged: map<AttributeField, string>)
    requires GoodsDeclaration in merged ==> merged[GoodsDeclaration] in {"", "true", "false"}
    requires Responsible in merged ==> merged[Responsible] == ToLower(merged[Responsible])
    ensures var back := AttributesOf(Received(Some(Stored(BodyOf(merged)))));
      && back.Done?
      && CtaDeclaration !in back.value
      && (forall k :: k in back.value && k != ResponsibleName && k != ResponsibleNumber ==>
            k in merged && back.value[k] == merged[k])
      && (forall k :: k in merged && merged[k] != "" && k != CtaDeclaration && k != ResponsibleName && k != ResponsibleNumber ==>
            k in back.value)
      && (ResponsibleName in back.value <==>
            Lookup(merged, Responsible) == Some("other") && Truthy(Lookup(merged, ResponsibleName)))
      && (ResponsibleName in back.value ==> back.value[ResponsibleName] == merged[ResponsibleName])
      && (ResponsibleNumber in back.value <==>
            Lookup(merged, Responsible) == Some("other") && Truthy(Lookup(merged, ResponsibleNumber)))
      && (ResponsibleNumber in back.value ==> back.value[ResponsibleNumber] == merged[ResponsibleNumber])
  {
    var body := BodyOf(merged);
    var stored := Stored(body);
    if GoodsDeclaration in merged && merged[GoodsDeclaration] != "" {
      assert stored.hazardous.Val? && BoolString(stored.hazardous.v) == merged[GoodsDeclaration];
    }
  }
}
