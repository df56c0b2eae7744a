/** What the models of the cluster share. */
module Kubernetes {
  /** A namespaced object's identity. */
  datatype Key = Key(ns: string, name: string)
}
