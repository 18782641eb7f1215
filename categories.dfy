/**
 * `getCategories`: the `type` request parameter must name one of the two
 * category kinds; an accepted type becomes the key value of one query on
 * the categories table's type index, whose result is sent back as it is.
 *
 * The query is a call into the document store: the store is a parameter,
 * a function from the query to its result or error.
 */
module Categories {
  import opened Wrappers
  import opened Http

  const ProductCategory := "ProductCategory"
  const CultureCategory := "CultureCategory"

  const TypeIndex := "CategoriesTypeIndex"
  const TypeCondition := "#type = :type"
  const TypeName := "#type"
  const TypeValue := ":type"
  const TypeAttribute := "type"

  const TypeMessage := "Param type must be ProductCategory or CultureCategory"
  const RejectedCode := 500

  /** The parameters of a DocumentClient `query` on a secondary index. */
  datatype QueryInput = QueryInput(
    tableName: string,
    indexName: string,
    keyCondition: string,
    attributeNames: map<string, string>,
    attributeValues: map<string, string>)

  /** The reply, and the queries issued on the way to it. */
  datatype Handled<D> = Handled(reply: Reply<D>, queries: seq<QueryInput>)

  /** The type gate: exactly the two names, compared case for case. */
  predicate AcceptedType(typeParam: Option<string>)
  {
    typeParam == Some(ProductCategory) || typeParam == Some(CultureCategory)
  }

  /** The query for the categories of one type. */
  function TypeQuery(table: string, categoryType: string): (q: QueryInput)
    ensures q.tableName == table && q.indexName == TypeIndex
    ensures q.attributeValues.Keys == {TypeValue} && q.attributeValues[TypeValue] == categoryType
  {
    QueryInput(table, TypeIndex, TypeCondition, map[TypeName := TypeAttribute], map[TypeValue := categoryType])
  }

  /**
   * The key condition of `q` is an equality between the attribute `attr`
   * and the value `value`, both given through placeholders.
   */
  ghost predicate Selects(q: QueryInput, attr: string, value: string)
  {
    exists n: string, v: string ::
      && q.keyCondition == n + " = " + v
      && n in q.attributeNames && q.attributeNames[n] == attr
      && v in q.attributeValues && q.attributeValues[v] == value
  }

  /** The query selects the items whose `type` is the given type, and no other value. */
  lemma TypeQuerySelects(table: string, categoryType: string, value: string)
    ensures Selects(TypeQuery(table, categoryType), TypeAttribute, value) <==> value == categoryType
  {
    var q := TypeQuery(table, categoryType);
    assert q.keyCondition == TypeName + " = " + TypeValue;
    if value == categoryType {
      assert TypeName in q.attributeNames && q.attributeNames[TypeName] == TypeAttribute;
    }
  }

  /**
   * `getCategories(req, res, next)` with `type` the request parameter (absent
   * when the request has none) and `store` the query's outcome.
   */
  function GetCategories<D>(typeParam: Option<string>, table: string, store: QueryInput -> Result<D>)
    : (h: Handled<D>)
    ensures h.queries == [] <==> !AcceptedType(typeParam)
    ensures !AcceptedType(typeParam) ==>
              h.reply == Json(StatusOk, Envelope(RejectedCode, TypeMessage, None))
    ensures AcceptedType(typeParam) ==>
              var q := TypeQuery(table, typeParam.value);
              && h.queries == [q]
              && (store(q).Err? ==> h.reply == Next(store(q).error))
              && (store(q).Ok? ==> h.reply == Json(StatusOk, Envelope(StatusOk, SuccessMessage, Some(store(q).value))))
    ensures h.reply.Json? && h.reply.body.Envelope? && h.reply.body.code == StatusOk <==>
              AcceptedType(typeParam) && store(TypeQuery(table, typeParam.value)).Ok?
  {
    if typeParam != Some(ProductCategory) && typeParam != Some(CultureCategory) then
      Handled(Json(StatusOk, Envelope(RejectedCode, TypeMessage, None)), [])
    else
      var paramDB := TypeQuery(table, typeParam.value);
      match store(paramDB)
      case Err(e) => Handled(Next(e), [paramDB])
      case Ok(queryDB) => Handled(Json(StatusOk, Envelope(StatusOk, SuccessMessage, Some(queryDB))), [paramDB])
  }

  /** Only the exact spellings pass the gate. */
  lemma GateIsCaseSensitive()
    ensures !AcceptedType(Some("productcategory")) && !AcceptedType(Some("CULTURECATEGORY"))
    ensures !AcceptedType(None) && !AcceptedType(Some(""))
    ensures AcceptedType(Some(ProductCategory)) && AcceptedType(Some(CultureCategory))
  {
  }

  /**
   * An accepted request issues exactly one query, and that query selects
   * the items whose `type` is the requested type and no other.
   */
  lemma AcceptedQuerySelectsType<D>(typeParam: Option<string>, table: string, store: QueryInput -> Result<D>, value: string)
    requires AcceptedType(typeParam)
    ensures |GetCategories(typeParam, table, store).queries| == 1
    ensures Selects(GetCategories(typeParam, table, store).queries[0], TypeAttribute, value) <==> value == typeParam.value
  {
    TypeQuerySelects(table, typeParam.value, value);
  }
}
