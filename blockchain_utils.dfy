/**
 * The backend's stand-in for a Fabric client: invocations and queries are
 * dispatched on the function name and answered with fixed values.
 */
module BlockchainUtils {
  import opened Wrappers

  /** The response dictionary of an invocation. */
  datatype ChainResponse = ChainResponse(status: string, message: string)

  const FunctionNotFound := ChainResponse("ERROR", "Function not found")

  /** The three entries every history query answers with. */
  const SimulatedHistory: seq<string> := [
    "Registered by HealthWell Inc. " + "on 2025-09-28 10:00:00",
    "Transferred from HealthWell Inc. " + "to Metro Distributors " + "on 2025-09-29 14:30:00",
    "Transferred from Metro Distributors " + "to City Pharmacy " + "on 2025-09-30 09:15:00"
  ]

  /**
   * invoke_chaincode(function_name, *args). The two known names answer SUCCESS with a message
   * built from their leading arguments (an IndexError, here Err, when those are missing);
   * every other name answers ERROR. Nothing else is read.
   */
  function InvokeChaincode(functionName: string, args: seq<string>): (r: Result<ChainResponse>)
    ensures functionName == "register_drug_batch" ==>
      (r.Ok? <==> |args| >= 1)
      && (r.Ok? ==> r.value == ChainResponse("SUCCESS", "Successfully registered batch " + args[0] + " on the blockchain."))
    ensures functionName == "transfer_drug_ownership" ==>
      (r.Ok? <==> |args| >= 2)
      && (r.Ok? ==> r.value == ChainResponse("SUCCESS", "Successfully transferred batch " + args[0] + " to " + args[1] + "."))
    ensures functionName != "register_drug_batch" && functionName != "transfer_drug_ownership" ==>
      r == Ok(FunctionNotFound)
    ensures r.Ok? ==> (r.value.status == "SUCCESS" <==> r.value != FunctionNotFound)
  {
    if functionName == "register_drug_batch" then
      if |args| < 1 then Err("IndexError: tuple index out of range")
      else Ok(ChainResponse("SUCCESS", "Successfully registered batch " + args[0] + " on the blockchain."))
    else if functionName == "transfer_drug_ownership" then
      if |args| < 2 then Err("IndexError: tuple index out of range")
      else Ok(ChainResponse("SUCCESS", "Successfully transferred batch " + args[0] + " to " + args[1] + "."))
    else
      Ok(FunctionNotFound)
  }

  /** query_chaincode(function_name, *args): the fixed journey for history queries, else []. */
  function QueryChaincode(functionName: string, args: seq<string>): (r: seq<string>)
    ensures functionName == "query_drug_history" <==> r != []
    ensures r != [] ==> r == SimulatedHistory && |r| == 3
  {
    if functionName == "query_drug_history" then SimulatedHistory else []
  }

  /** The arguments never influence a query's answer. */
  lemma QueryIgnoresArguments(functionName: string, args1: seq<string>, args2: seq<string>)
    ensures QueryChaincode(functionName, args1) == QueryChaincode(functionName, args2)
  {
  }

  /** Arguments beyond the ones a known name reads do not change its answer. */
  lemma InvokeIgnoresExtraArguments(functionName: string, args: seq<string>, extra: seq<string>)
    requires |args| >= 2
    ensures InvokeChaincode(functionName, args + extra) == InvokeChaincode(functionName, args)
  {
  }
}
