/**
 * The evaluator's interface (include/janssonpath_evaluate.h): the
 * result record and the table of callable functions.
 */
module Results {
  import opened Wrappers
  import opened Json

  /**
   * jsonpath_result_t: a value (NULL on failure) and three independent
   * flags. A collection is a bag of nodes held in an array, as opposed
   * to a real JSON array; a right value is the product of an operator,
   * as opposed to a node of the document; a constant does not depend on
   * the document.
   */
  datatype Result = Result(value: Option<Json>, isCollection: bool, isRightValue: bool, isConstant: bool)

  /** error_result: no value and no flag set. */
  const ErrorResult := Result(None, false, false, false)

  /** jsonpath_callable_plain_t: arguments (each possibly NULL) to a new value or NULL. */
  type Callable = seq<Option<Json>> -> Option<Json>

  /** One row of a function table: `names[i]` and `functions[i]`. */
  datatype Entry = Entry(name: string, callable: Callable)

  /** jsonpath_function_table_t, one name per function by construction. */
  type FunctionTable = seq<Entry>

  /** get_function: the function of the first entry named `name`; NULL without a table or a match. */
  function GetFunction(table: Option<FunctionTable>, name: string): (f: Option<Callable>)
    ensures f.Some? <==> table.Some? && exists k :: 0 <= k < |table.value| && table.value[k].name == name
    ensures f.Some? ==>
      exists k :: 0 <= k < |table.value| && table.value[k].name == name &&
        f.value == table.value[k].callable &&
        forall j :: 0 <= j < k ==> table.value[j].name != name
  {
    if table.None? then None
    else
      var k := FindFirst(table.value, (e: Entry) => e.name == name);
      if k < |table.value| then Some(table.value[k].callable) else None
  }
}
