/**
 * The rows of the `clients`, `projects` and `secrets` tables as the extension
 * reads them (lib/database.types.ts), with the relations the vault view attaches
 * to a secret (`SecretWithRelations` in components/vault-view.tsx).
 * A nullable or optional column is an `Option`.
 */
module Records {
  import opened Wrappers

  datatype Client = Client(id: string, name: string)

  datatype Project = Project(id: string, name: string, clients: Option<Client>)

  datatype Secret = Secret(
    id: string,
    title: string,
    username: Option<string>,
    encryptedPassword: string,
    url: Option<string>,
    notes: Option<string>,
    secretType: string,
    clientId: Option<string>,
    clients: Option<Client>,
    projects: Option<Project>)
}
