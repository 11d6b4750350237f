/** sdk/apis/kubebind/v1alpha2: names of resources, and the APIs that a service provider may claim. */
module ClaimableApis {

  /** ResourceGroupName of a resource in an export or a request. */
  function GroupName(group: string, resource: string): string {
    resource + "." + if group == "" then "core" else group
  }

  /** The claimable APIs by group and plural name; all of version v1. */
  const CLAIMABLE_APIS: seq<(string, string)> := [("", "configmaps"), ("", "secrets"), ("", "serviceaccounts")]
}
